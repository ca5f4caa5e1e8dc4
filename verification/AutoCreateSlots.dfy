/** Semaphore and queue accounting of the auto-create protocol: what
    icinga/ratelimiter.go guarantees in every reachable state. */
module AutoCreateSlots {
  import opened Common
  import opened AutoCreate

  function Count(p: Thread -> bool, ts: seq<Thread>): nat {
    if ts == [] then 0 else (if p(ts[0]) then 1 else 0) + Count(p, ts[1..])
  }

  lemma {:induction false} CountUpdate(p: Thread -> bool, ts: seq<Thread>, i: nat, x: Thread)
    requires i < |ts|
    ensures Count(p, ts[i := x]) == Count(p, ts) - (if p(ts[i]) then 1 else 0) + (if p(x) then 1 else 0)
    decreases |ts|
  {
    if i == 0 {
      assert ts[i := x][1..] == ts[1..];
    } else {
      assert ts[i := x][1..] == ts[1..][i - 1 := x];
      CountUpdate(p, ts[1..], i - 1, x);
    }
  }

  lemma {:induction false} CountAppend(p: Thread -> bool, ts: seq<Thread>, x: Thread)
    ensures Count(p, ts + [x]) == Count(p, ts) + (if p(x) then 1 else 0)
    decreases |ts|
  {
    if ts == [] {
      assert ts + [x] == [x];
    } else {
      assert (ts + [x])[1..] == ts[1..] + [x];
      CountAppend(p, ts[1..], x);
    }
  }

  /** A positive count has a witness, and a member makes the count positive. */
  lemma {:induction false} CountWitness(p: Thread -> bool, ts: seq<Thread>)
    ensures Count(p, ts) > 0 <==> exists i :: 0 <= i < |ts| && p(ts[i])
    decreases |ts|
  {
    if ts != [] {
      CountWitness(p, ts[1..]);
      if i :| 0 <= i < |ts| && p(ts[i]) {
        assert i > 0 ==> ts[1..][i - 1] == ts[i];
      }
      if Count(p, ts[1..]) > 0 {
        var j :| 0 <= j < |ts[1..]| && p(ts[1..][j]);
        assert p(ts[j + 1]);
      }
    }
  }

  lemma {:induction false} CountTwo(p: Thread -> bool, ts: seq<Thread>, i: nat, j: nat)
    requires i < j < |ts| && p(ts[i]) && p(ts[j])
    ensures Count(p, ts) >= 2
    decreases |ts|
  {
    if i == 0 {
      assert ts[1..][j - 1] == ts[j];
      CountWitness(p, ts[1..]);
    } else {
      CountTwo(p, ts[1..], i - 1, j - 1);
    }
  }

  lemma {:induction false} CountMonotone(p: Thread -> bool, q: Thread -> bool, ts: seq<Thread>)
    requires forall i :: 0 <= i < |ts| && p(ts[i]) ==> q(ts[i])
    ensures Count(p, ts) <= Count(q, ts)
    decreases |ts|
  {
    if ts != [] {
      forall i | 0 <= i < |ts[1..]| && p(ts[1..][i])
        ensures q(ts[1..][i])
      {
        assert ts[1..][i] == ts[i + 1];
      }
      CountMonotone(p, q, ts[1..]);
    }
  }

  ghost predicate Placed(cfg: Config, s: State) {
    forall t :: 0 <= t < |s.threads| ==> WellPlaced(cfg, s.threads[t])
  }

  /** The accounting invariant. Without a limiter no slot is ever used. */
  ghost predicate Accounted(cfg: Config, s: State) {
    && Placed(cfg, s)
    && s.mutateInUse == (if cfg.limited then Count(HoldsMutate, s.threads) else 0)
    && s.statusInUse == (if cfg.limited then Count(HoldsStatus, s.threads) else 0)
    && s.queued == (if cfg.limited then Count(Counted, s.threads) else 0)
    && s.mutateInUse <= cfg.mutateCap && s.statusInUse <= cfg.statusCap && s.queued <= cfg.maxQueue
  }

  function Bit(b: bool): int {
    if b then 1 else 0
  }

  /** The effect moves each counter by exactly what the thread's region says,
      and takes a slot only where one is free. */
  predicate Balanced(cfg: Config, s: State, th: Thread, e: Effect) {
    var th' := th.(pc := e.pc);
    && WellPlaced(cfg, th')
    && (if cfg.limited then
          && e.dMutate == Bit(HoldsMutate(th')) - Bit(HoldsMutate(th))
          && e.dStatus == Bit(HoldsStatus(th')) - Bit(HoldsStatus(th))
          && e.dQueued == Bit(Counted(th')) - Bit(Counted(th))
        else e.dMutate == e.dStatus == e.dQueued == 0)
    && (e.dMutate <= 0 || s.mutateInUse < cfg.mutateCap)
    && (e.dStatus <= 0 || s.statusInUse < cfg.statusCap)
    && (e.dQueued <= 0 || s.queued < cfg.maxQueue)
  }

  lemma StatusBalanced(cfg: Config, s: State, t: nat, th: Thread, c: Choice)
    requires WellPlaced(cfg, th) && StatusStep(cfg, s, t, th, c).Some?
    ensures Balanced(cfg, s, th, StatusStep(cfg, s, t, th, c).value)
  {
  }

  lemma NeedsBalanced(cfg: Config, s: State, t: nat, th: Thread, c: Choice)
    requires WellPlaced(cfg, th) && NeedsStep(cfg, s, t, th, c).Some?
    ensures Balanced(cfg, s, th, NeedsStep(cfg, s, t, th, c).value)
  {
  }

  lemma MutateBalanced(cfg: Config, s: State, t: nat, th: Thread, c: Choice)
    requires WellPlaced(cfg, th) && MutateStep(cfg, s, t, th, c).Some?
    ensures Balanced(cfg, s, th, MutateStep(cfg, s, t, th, c).value)
  {
  }

  lemma ForwardBalanced(cfg: Config, s: State, t: nat, th: Thread, c: Choice)
    requires WellPlaced(cfg, th) && ForwardStep(cfg, s, t, th, c).Some?
    ensures Balanced(cfg, s, th, ForwardStep(cfg, s, t, th, c).value)
  {
  }

  lemma StepBalanced(cfg: Config, s: State, t: nat, c: Choice)
    requires t < |s.threads| && WellPlaced(cfg, s.threads[t]) && Step(cfg, s, t, c).Some?
    ensures Balanced(cfg, s, s.threads[t], Step(cfg, s, t, c).value)
  {
    var th := s.threads[t];
    match PhaseOf(th.pc)
    case InStatus => StatusBalanced(cfg, s, t, th, c);
    case InNeeds => NeedsBalanced(cfg, s, t, th, c);
    case InMutate => MutateBalanced(cfg, s, t, th, c);
    case InForward => ForwardBalanced(cfg, s, t, th, c);
  }

  lemma AccountedApply(cfg: Config, s: State, t: nat, e: Effect)
    requires Accounted(cfg, s) && t < |s.threads| && Balanced(cfg, s, s.threads[t], e)
    ensures Accounted(cfg, Apply(s, t, e))
  {
    var th := s.threads[t].(pc := e.pc);
    CountUpdate(HoldsMutate, s.threads, t, th);
    CountUpdate(HoldsStatus, s.threads, t, th);
    CountUpdate(Counted, s.threads, t, th);
  }

  lemma AccountedStep(cfg: Config, s: State, a: Action, s': State)
    requires Accounted(cfg, s) && Next(cfg, s, a) == Some(s')
    ensures Accounted(cfg, s')
  {
    match a
    case Request(kind, key) =>
      var th := Thread(kind, key, FirstPC(cfg, kind));
      CountAppend(HoldsMutate, s.threads, th);
      CountAppend(HoldsStatus, s.threads, th);
      CountAppend(Counted, s.threads, th);
    case Move(t, c) =>
      StepBalanced(cfg, s, t, c);
      AccountedApply(cfg, s, t, Step(cfg, s, t, c).value);
    case _ =>
  }

  lemma {:induction false} AccountedRun(cfg: Config, s: State, actions: seq<Action>, s': State)
    requires Accounted(cfg, s) && Run(cfg, s, actions) == Some(s')
    ensures Accounted(cfg, s')
    decreases |actions|
  {
    if actions != [] {
      var s1 := Next(cfg, s, actions[0]).value;
      AccountedStep(cfg, s, actions[0], s1);
      AccountedRun(cfg, s1, actions[1..], s');
    }
  }

  lemma ReachableIsAccounted(cfg: Config, s: State)
    requires Reachable(cfg, s)
    ensures Accounted(cfg, s)
  {
    var start: int, actions: seq<Action> :| Run(cfg, Initial(start), actions) == Some(s);
    AccountedRun(cfg, Initial(start), actions, s);
  }

  /** Limiter accounting in every reachable state: `queued` is the number of
      threads waiting, holding, or mid-cancel or mid-release; slots in use are
      bounded by it and by their capacities. */
  lemma LimiterAccounting(cfg: Config, s: State)
    requires cfg.limited && Reachable(cfg, s)
    ensures s.queued == Count(Counted, s.threads) <= cfg.maxQueue
    ensures s.statusInUse == Count(HoldsStatus, s.threads) <= Min(cfg.statusCap, s.queued)
    ensures s.mutateInUse == Count(HoldsMutate, s.threads) <= cfg.mutateCap
    ensures Count(InFlight, s.threads) <= cfg.mutateCap
  {
    ReachableIsAccounted(cfg, s);
    CountMonotone(HoldsStatus, Counted, s.threads);
    CountMonotone(InFlight, HoldsMutate, s.threads);
  }

  /** A release never blocks: the receive always finds the thread's own token. */
  lemma ReleaseNeverBlocks(cfg: Config, s: State, t: nat)
    requires Accounted(cfg, s) && t < |s.threads|
    requires s.threads[t].pc.ReleaseMutate? || s.threads[t].pc.ReleaseStatus?
    ensures Step(cfg, s, t, Go).Some?
  {
    CountWitness(HoldsMutate, s.threads);
    CountWitness(HoldsStatus, s.threads);
    assert WellPlaced(cfg, s.threads[t]);
    assert HoldsMutate(s.threads[t]) || HoldsStatus(s.threads[t]);
  }
}
