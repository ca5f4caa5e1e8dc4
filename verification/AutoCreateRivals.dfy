/** Exactly when creation is exclusive per key: the runs in which two threads
    create the same key, and the conditions that rule them out. */
module AutoCreateRivals {
  import opened ServiceCache
  import opened AutoCreate
  import opened AutoCreateExclusive
  import opened Common

  // ---------------------------------------------------------------- building runs

  lemma {:induction false} RunConcat(cfg: Config, s: State, a: seq<Action>, b: seq<Action>, s1: State)
    requires Run(cfg, s, a) == Some(s1)
    ensures Run(cfg, s, a + b) == Run(cfg, s1, b)
    decreases |a|
  {
    if a == [] {
      assert a + b == b;
    } else {
      assert (a + b)[1..] == a[1..] + b;
      RunConcat(cfg, Next(cfg, s, a[0]).value, a[1..], b, s1);
    }
  }

  lemma Extend(cfg: Config, tests: bool, actions: seq<Action>, s: State, a: Action, s': State)
    requires RunsTo(cfg, tests, 0, actions, s) && Permits(tests, a) && Next(cfg, s, a) == Some(s')
    ensures RunsTo(cfg, tests, 0, actions + [a], s')
  {
    RunConcat(cfg, Initial(0), actions, [a], s);
    assert [a][1..] == [];
    assert Run(cfg, s', []) == Some(s');
  }

  /** Thread t takes one step. */
  lemma Take(cfg: Config, tests: bool, actions: seq<Action>, s: State, t: nat, c: Choice, e: Effect)
    returns (actions': seq<Action>, s': State)
    requires RunsTo(cfg, tests, 0, actions, s) && t < |s.threads| && Step(cfg, s, t, c) == Some(e)
    ensures RunsTo(cfg, tests, 0, actions', s') && s' == Apply(s, t, e)
  {
    s' := Apply(s, t, e);
    Extend(cfg, tests, actions, s, Move(t, c), s');
    actions' := actions + [Move(t, c)];
  }

  /** Thread t has moved to `pc`, taking slots and its place in the queue. */
  predicate Moved(s: State, s': State, t: nat, pc: PC, mutate: int, status: int)
    requires t < |s.threads|
  {
    s' == s.(threads := s.threads[t := s.threads[t].(pc := pc)], mutateInUse := s.mutateInUse + mutate,
             statusInUse := s.statusInUse + status, queued := s.queued + status, log := s'.log)
  }

  /** There is room for thread t on its way to the creation. */
  predicate Room(cfg: Config, s: State, kind: Kind) {
    cfg.limited ==> && s.mutateInUse < cfg.mutateCap
                    && (kind.Work? ==> s.statusInUse < cfg.statusCap && s.queued < cfg.maxQueue)
  }

  /** A work request that finds nothing in the cache. */
  lemma WorkToMutate(cfg: Config, tests: bool, actions: seq<Action>, s: State, t: nat)
    returns (actions': seq<Action>, s': State)
    requires RunsTo(cfg, tests, 0, actions, s) && t < |s.threads| && s.threads[t].key !in s.entries
    requires s.threads[t].kind.Work? && s.threads[t].pc.Arrive? && Room(cfg, s, Work)
    ensures RunsTo(cfg, tests, 0, actions', s')
    ensures if cfg.limited then Moved(s, s', t, AwaitMutate, 0, 1) else Moved(s, s', t, Check(true), 0, 0)
  {
    if cfg.limited {
      actions', s' := Take(cfg, tests, actions, s, t, Go, Effect(AwaitStatus, Some(Entered(t)), 0, 0, 1));
      actions', s' := Take(cfg, tests, actions', s', t, Go, Effect(Check(false), None, 0, 1, 0));
      actions', s' := Take(cfg, tests, actions', s', t, Go, Noted(AwaitMutate, Looked(t, NotFound)));
    } else {
      actions', s' := Take(cfg, tests, actions, s, t, Go, Local(Check(false)));
      actions', s' := Take(cfg, tests, actions', s', t, Go, Noted(Check(true), Looked(t, NotFound)));
    }
    assert s'.threads == s.threads[t := s'.threads[t]];
  }

  /** A test create that finds nothing in the cache. */
  lemma TestToMutate(cfg: Config, actions: seq<Action>, s: State, t: nat) returns (actions': seq<Action>, s': State)
    requires RunsTo(cfg, true, 0, actions, s) && t < |s.threads| && s.threads[t].key !in s.entries
    requires s.threads[t].kind.TestCreate? && s.threads[t].pc.Probe?
    ensures RunsTo(cfg, true, 0, actions', s')
    ensures Moved(s, s', t, if cfg.limited then AwaitMutate else Mark, 0, 0)
  {
    actions', s' := Take(cfg, true, actions, s, t, Go,
                            Noted(if cfg.limited then AwaitMutate else Mark, Looked(t, NotFound)));
  }

  /** Any request walks up to its SetPending. */
  lemma ToMark(cfg: Config, tests: bool, actions: seq<Action>, s: State, t: nat)
    returns (actions': seq<Action>, s': State)
    requires RunsTo(cfg, tests, 0, actions, s) && t < |s.threads| && s.threads[t].key !in s.entries
    requires Room(cfg, s, s.threads[t].kind)
    requires var th := s.threads[t];
             (th.kind.Work? && th.pc.Arrive?) || (tests && th.kind.TestCreate? && th.pc.Probe?)
    ensures RunsTo(cfg, tests, 0, actions', s')
    ensures Moved(s, s', t, Mark, if cfg.limited then 1 else 0, if cfg.limited && s.threads[t].kind.Work? then 1 else 0)
  {
    if s.threads[t].kind.Work? {
      actions', s' := WorkToMutate(cfg, tests, actions, s, t);
      if cfg.limited {
        actions', s' := Take(cfg, tests, actions', s', t, Go, Effect(Check(true), None, 1, 0, 0));
      }
      actions', s' := Take(cfg, tests, actions', s', t, Go, Noted(Mark, Looked(t, NotFound)));
    } else {
      actions', s' := TestToMutate(cfg, actions, s, t);
      if cfg.limited {
        actions', s' := Take(cfg, tests, actions', s', t, Go, Effect(Mark, None, 1, 0, 0));
      }
    }
    assert s'.threads == s.threads[t := s'.threads[t]];
  }

  /** Two requests for one key arrive. */
  lemma TwoArrive(cfg: Config, tests: bool, first: Kind, second: Kind, k: Key) returns (actions: seq<Action>, s: State)
    requires Permits(tests, Request(first, k)) && Permits(tests, Request(second, k))
    ensures RunsTo(cfg, tests, 0, actions, s)
    ensures s == Initial(0).(threads := [Thread(first, k, FirstPC(cfg, first)),
                                         Thread(second, k, FirstPC(cfg, second))])
  {
    var s0, a, b := Initial(0), Request(first, k), Request(second, k);
    assert RunsTo(cfg, tests, 0, [], s0);
    var s1 := Next(cfg, s0, a).value;
    Extend(cfg, tests, [], s0, a, s1);
    s := Next(cfg, s1, b).value;
    Extend(cfg, tests, [] + [a], s1, b, s);
    actions := [] + [a] + [b];
  }

  predicate Creates(kind: Kind, tests: bool) {
    kind.Work? || (tests && kind.TestCreate?)
  }

  function Works(first: Kind, second: Kind): nat {
    (if first.Work? then 1 else 0) + (if second.Work? then 1 else 0)
  }

  predicate EndsWith(log: Log, events: Log) {
    |log| >= |events| && log[|log| - |events|..] == events
  }

  // ---------------------------------------------------------------- rivals

  /** Two requests for one key, each past its last look at the cache before
      either marks the key. */
  lemma TwoCreators(cfg: Config, tests: bool, first: Kind, second: Kind, k: Key)
    returns (actions: seq<Action>, s: State)
    requires Creates(first, tests) && Creates(second, tests)
    requires cfg.limited ==>
             cfg.mutateCap >= 2 && cfg.statusCap >= Works(first, second) && cfg.maxQueue >= Works(first, second)
    ensures RunsTo(cfg, tests, 0, actions, s)
    ensures EndsWith(s.log, [Event(0, k, Began(0)), Event(0, k, Began(1))])
    ensures |s.threads| == 2 && s.threads[1].kind == second
  {
    actions, s := TwoArrive(cfg, tests, first, second, k);
    actions, s := ToMark(cfg, tests, actions, s, 0);
    actions, s := ToMark(cfg, tests, actions, s, 1);
    actions, s := Take(cfg, tests, actions, s, 0, Go, Noted(Creating, Began(0)));
    actions, s := Take(cfg, tests, actions, s, 1, Go, Noted(Creating, Began(1)));
  }

  /** A test create that waited for the only slot repeats a creation that has
      succeeded meanwhile: it does not look at the cache again. */
  lemma TestCreateRepeats(cfg: Config, k: Key) returns (actions: seq<Action>, s: State)
    requires cfg.limited && cfg.mutateCap >= 1
    ensures RunsTo(cfg, true, 0, actions, s)
    ensures EndsWith(s.log, [Event(0, k, Began(0)), Event(0, k, Replied(0, Created)), Event(0, k, Registered(0)),
                             Event(0, k, Began(1))])
  {
    actions, s := TwoArrive(cfg, true, TestCreate, TestCreate, k);
    actions, s := TestToMutate(cfg, actions, s, 1);
    actions, s := ToMark(cfg, true, actions, s, 0);
    actions, s := Take(cfg, true, actions, s, 0, Go, Noted(Creating, Began(0)));
    actions, s := Take(cfg, true, actions, s, 0, Answer(Created), Noted(Settling(Created), Replied(0, Created)));
    actions, s := Take(cfg, true, actions, s, 0, Go, Noted(ReleaseMutate, Registered(0)));
    actions, s := Take(cfg, true, actions, s, 0, Go, Effect(Done, None, -1, 0, 0));
    actions, s := Take(cfg, true, actions, s, 1, Go, Effect(Mark, None, 1, 0, 0));
    actions, s := Take(cfg, true, actions, s, 1, Go, Noted(Creating, Began(1)));
  }

  // ---------------------------------------------------------------- exact conditions

  ghost predicate AlwaysSeparates(cfg: Config, tests: bool, all: bool) {
    forall start: int, actions: seq<Action>, s: State ::
      RunsTo(cfg, tests, start, actions, s) ==> Separation(s, cfg.ttl, all)
  }

  lemma LonelySeparates(cfg: Config, tests: bool, all: bool)
    requires Lonely(cfg, tests) && (all && tests ==> TestsCovered(cfg))
    ensures AlwaysSeparates(cfg, tests, all)
  {
    forall start: int, actions: seq<Action>, s: State | RunsTo(cfg, tests, start, actions, s)
      ensures Separation(s, cfg.ttl, all)
    {
      ExclusiveSeparates(cfg, tests, start, actions, s, all);
    }
  }

  lemma RivalsCollide(cfg: Config, tests: bool, all: bool, first: Kind, second: Kind)
    requires Creates(first, tests) && Creates(second, tests) && (all || second.Work?)
    requires cfg.limited ==>
             cfg.mutateCap >= 2 && cfg.statusCap >= Works(first, second) && cfg.maxQueue >= Works(first, second)
    ensures !AlwaysSeparates(cfg, tests, all)
  {
    var k: Key := [];
    var actions, s := TwoCreators(cfg, tests, first, second, k);
    var i, j := |s.log| - 2, |s.log| - 1;
    assert s.log[i] == s.log[i..][0] && s.log[j] == s.log[i..][1];
    assert s.log[i].what.Began? && Begins(s.log[j], s.log[i].key) && (all || ByWork(s, j));
    assert !Apart(s.log, cfg.ttl, i, j);
    assert !Separation(s, cfg.ttl, all);
  }

  /** Without test creates, creations of a key are separated in all runs if and
      only if there is a limiter that lets only one thread create, or only one
      work request in, at a time. */
  lemma ExclusiveIff(cfg: Config)
    ensures AlwaysSeparates(cfg, false, true)
            <==> cfg.limited && (cfg.mutateCap <= 1 || cfg.statusCap <= 1 || cfg.maxQueue <= 1)
  {
    if Lonely(cfg, false) {
      LonelySeparates(cfg, false, true);
    } else {
      RivalsCollide(cfg, false, true, Work, Work);
    }
  }

  /** With test creates, the creations begun by work requests are separated from
      all earlier ones if and only if there is one mutate slot, or no work request
      ever gets as far. */
  lemma WorkExclusiveIff(cfg: Config)
    ensures AlwaysSeparates(cfg, true, false)
            <==> cfg.limited && (cfg.mutateCap <= 1 || cfg.statusCap == 0 || cfg.maxQueue == 0)
  {
    if Lonely(cfg, true) {
      LonelySeparates(cfg, true, false);
    } else {
      RivalsCollide(cfg, true, false, TestCreate, Work);
    }
  }

  /** With test creates, all creations are separated only in configurations that
      never create, or where nothing stays cached and there is one slot. */
  lemma TestExclusiveIff(cfg: Config)
    ensures AlwaysSeparates(cfg, true, true)
            <==> cfg.limited && (cfg.mutateCap == 0 || (cfg.mutateCap == 1 && cfg.ttl < 0))
  {
    if cfg.limited && TestsCovered(cfg) {
      LonelySeparates(cfg, true, true);
    } else if cfg.limited && cfg.mutateCap == 1 {
      var k: Key := [];
      var actions, s := TestCreateRepeats(cfg, k);
      var i, j := |s.log| - 4, |s.log| - 1;
      assert forall n :: 0 <= n < 4 ==> s.log[i + n] == s.log[i..][n];
      assert s.log[i].what.Began? && Begins(s.log[j], s.log[i].key);
      assert s.log[..j][i + 1].what.Replied? && s.log[..j][i + 2].what.Registered?;
      assert !Apart(s.log, cfg.ttl, i, j);
      assert !Separation(s, cfg.ttl, true);
    } else {
      RivalsCollide(cfg, true, true, TestCreate, TestCreate);
    }
  }

  /** With one mutate slot, in every run, test creates included: what a work
      request begins is apart from every earlier creation of the key. */
  lemma WorkCreationsAreSeparated(cfg: Config, start: int, actions: seq<Action>, s: State, i: nat, j: nat)
    requires cfg.limited && cfg.mutateCap <= 1 && Run(cfg, Initial(start), actions) == Some(s)
    requires i < j < |s.log| && s.log[i].what.Began? && Begins(s.log[j], s.log[i].key) && ByWork(s, j)
    ensures Apart(s.log, cfg.ttl, i, j)
  {
    ExclusiveSeparates(cfg, true, start, actions, s, false);
  }
}
