/** Nested status-then-mutate acquisition never deadlocks: from every reachable
    state all requests can finish without any timeout firing. */
module AutoCreateProgress {
  import opened Common
  import opened ServiceCache
  import opened AutoCreate
  import opened AutoCreateSlots
  import opened AutoCreateHistory

  /** Distance to Done; every step of a thread goes down, except for the step
      back from a poll that still reads Pending. */
  function Rank(pc: PC): nat {
    match pc
    case Arrive => 20
    case AwaitStatus => 19
    case Probe => 18
    case Check(slotted) => if slotted then 13 else 18
    case PollGuard(slotted, _) => if slotted then 12 else 17
    case PollRead(slotted, _) => if slotted then 11 else 16
    case AwaitMutate => 14
    case Mark => 10
    case Creating => 9
    case Settling(_) => 8
    case Deleting => 9
    case Removing => 8
    case ReleaseMutate => 7
    case Forward => 6
    case Send => 5
    case Enqueue => 4
    case ReleaseStatus => 3
    case Uncount => 2
    case Cancelled => 2
    case Done => 0
  }

  function TotalRank(ts: seq<Thread>): nat {
    if ts == [] then 0 else Rank(ts[0].pc) + TotalRank(ts[1..])
  }

  lemma {:induction false} TotalRankUpdate(ts: seq<Thread>, i: nat, x: Thread)
    requires i < |ts|
    ensures TotalRank(ts[i := x]) == TotalRank(ts) - Rank(ts[i].pc) + Rank(x.pc)
    decreases |ts|
  {
    if i == 0 {
      assert ts[i := x][1..] == ts[1..];
    } else {
      assert ts[i := x][1..] == ts[1..][i - 1 := x];
      TotalRankUpdate(ts[1..], i - 1, x);
    }
  }

  /** The choice that involves no timeout and no API failure. */
  function Smooth(pc: PC): Choice {
    match pc
    case Creating => Answer(Created)
    case Deleting => Outcome(true)
    case Send => Outcome(true)
    case _ => Go
  }

  /** The thread can go on now, and gets closer to Done. */
  predicate Advances(cfg: Config, s: State, t: nat)
    requires t < |s.threads|
  {
    var e := Step(cfg, s, t, Smooth(s.threads[t].pc));
    e.Some? && Rank(e.value.pc) < Rank(s.threads[t].pc)
  }

  predicate Blockable(pc: PC) {
    pc.AwaitStatus? || pc.AwaitMutate? || pc.PollRead? || pc.Done?
  }

  lemma UnblockableAdvances(cfg: Config, s: State, t: nat)
    requires Accounted(cfg, s) && t < |s.threads| && !Blockable(s.threads[t].pc)
    ensures Advances(cfg, s, t)
  {
    assert WellPlaced(cfg, s.threads[t]);
    if s.threads[t].pc.ReleaseMutate? || s.threads[t].pc.ReleaseStatus? {
      ReleaseNeverBlocks(cfg, s, t);
    }
  }

  predicate Open(cfg: Config) {
    cfg.limited ==> cfg.mutateCap >= 1 && cfg.statusCap >= 1
  }

  predicate AllBlockable(s: State) {
    forall u :: 0 <= u < |s.threads| ==> Blockable(s.threads[u].pc)
  }

  /** Nobody is in flight, so a poll cannot read Pending any more. */
  lemma PollAdvances(cfg: Config, s: State, t: nat)
    requires Sound(cfg, s) && AllBlockable(s) && t < |s.threads| && s.threads[t].pc.PollRead?
    ensures Advances(cfg, s, t)
  {
    var k := s.threads[t].key;
    assert Mirrored(s.entries, s.log, k, cfg.ttl, s.now) && Flying(s.threads, s.log, k);
    assert Lookup(s.entries, cfg.ttl, s.now, k) != Pending;
  }

  /** Nobody holds the mutate slot, so it is free. */
  lemma MutateAdvances(cfg: Config, s: State, t: nat)
    requires Open(cfg) && Accounted(cfg, s) && AllBlockable(s) && t < |s.threads| && s.threads[t].pc.AwaitMutate?
    requires forall u :: 0 <= u < |s.threads| ==> !s.threads[u].pc.PollRead?
    ensures Advances(cfg, s, t)
  {
    CountWitness(HoldsMutate, s.threads);
    assert WellPlaced(cfg, s.threads[t]);
  }

  /** Nobody holds a status slot, so one is free. */
  lemma StatusAdvances(cfg: Config, s: State, t: nat)
    requires Open(cfg) && Accounted(cfg, s) && t < |s.threads| && s.threads[t].pc.AwaitStatus?
    requires forall u :: 0 <= u < |s.threads| ==> s.threads[u].pc.AwaitStatus? || s.threads[u].pc.Done?
    ensures Advances(cfg, s, t)
  {
    CountWitness(HoldsStatus, s.threads);
    assert WellPlaced(cfg, s.threads[t]);
  }

  /** As long as a request is unfinished, some request can advance. */
  lemma SomebodyAdvances(cfg: Config, s: State) returns (t: nat)
    requires Open(cfg) && Sound(cfg, s) && !AllDone(s)
    ensures t < |s.threads| && Advances(cfg, s, t)
  {
    if !AllBlockable(s) {
      t :| t < |s.threads| && !Blockable(s.threads[t].pc);
      UnblockableAdvances(cfg, s, t);
    } else if u :| 0 <= u < |s.threads| && s.threads[u].pc.PollRead? {
      PollAdvances(cfg, s, u);
      t := u;
    } else if u :| 0 <= u < |s.threads| && s.threads[u].pc.AwaitMutate? {
      MutateAdvances(cfg, s, u);
      t := u;
    } else {
      t :| t < |s.threads| && !s.threads[t].pc.Done?;
      assert Blockable(s.threads[t].pc);
      StatusAdvances(cfg, s, t);
    }
  }

  predicate AllDone(s: State) {
    forall t :: 0 <= t < |s.threads| ==> s.threads[t].pc.Done?
  }

  /** Only thread steps, and none of them a timeout. */
  predicate NoTimeouts(actions: seq<Action>) {
    forall i :: 0 <= i < |actions| ==> actions[i].Move? && !actions[i].choice.GiveUp?
  }

  lemma {:induction false} FinishFrom(cfg: Config, s: State) returns (actions: seq<Action>, s': State)
    requires Open(cfg) && Sound(cfg, s)
    ensures NoTimeouts(actions) && Run(cfg, s, actions) == Some(s') && AllDone(s')
    ensures |actions| <= TotalRank(s.threads)
    decreases TotalRank(s.threads)
  {
    if AllDone(s) {
      return [], s;
    }
    var t := SomebodyAdvances(cfg, s);
    var a := Move(t, Smooth(s.threads[t].pc));
    var s1 := Next(cfg, s, a).value;
    SoundStep(cfg, s, a, s1);
    TotalRankUpdate(s.threads, t, s1.threads[t]);
    assert s1.threads == s.threads[t := s1.threads[t]];
    var rest, last := FinishFrom(cfg, s1);
    actions, s' := [a] + rest, last;
    assert actions[1..] == rest;
  }

  /** No deadlock: every reachable state has a timeout-free continuation in which
      all requests finish, of at most twenty steps per request. */
  lemma NoDeadlock(cfg: Config, s: State)
    requires Open(cfg) && Reachable(cfg, s)
    ensures exists actions, s' :: NoTimeouts(actions) && Run(cfg, s, actions) == Some(s') && AllDone(s')
                                  && |actions| <= 20 * |s.threads|
  {
    ReachableIsSound(cfg, s);
    var actions, s' := FinishFrom(cfg, s);
    TotalRankBound(s.threads);
  }

  lemma {:induction false} TotalRankBound(ts: seq<Thread>)
    ensures TotalRank(ts) <= 20 * |ts|
  {
    if ts != [] {
      TotalRankBound(ts[1..]);
    }
  }

  // ---------------------------------------------------------------- every run

  /** One round of the wait loop of needsCreate: its test, or a read of Pending. */
  predicate Polls(pc: PC, pc': PC) {
    (pc.PollGuard? && pc'.PollRead?) || (pc.PollRead? && pc'.PollGuard?)
  }

  /** Like the rank, but the same all around the wait loop. */
  function Weight(pc: PC): nat {
    if pc.PollRead? then Rank(pc) + 1 else Rank(pc)
  }

  predicate Lightens(pc: PC, pc': PC) {
    if Polls(pc, pc') then Weight(pc') == Weight(pc) else Weight(pc') < Weight(pc)
  }

  lemma NeedsWeighs(cfg: Config, s: State, t: nat, th: Thread, c: Choice)
    requires NeedsStep(cfg, s, t, th, c).Some?
    ensures Lightens(th.pc, NeedsStep(cfg, s, t, th, c).value.pc)
  {
  }

  lemma MutateWeighs(cfg: Config, s: State, t: nat, th: Thread, c: Choice)
    requires MutateStep(cfg, s, t, th, c).Some?
    ensures Lightens(th.pc, MutateStep(cfg, s, t, th, c).value.pc)
  {
  }

  lemma ForwardWeighs(cfg: Config, s: State, t: nat, th: Thread, c: Choice)
    requires ForwardStep(cfg, s, t, th, c).Some?
    ensures Lightens(th.pc, ForwardStep(cfg, s, t, th, c).value.pc)
  {
  }

  lemma StatusWeighs(cfg: Config, s: State, t: nat, th: Thread, c: Choice)
    requires StatusStep(cfg, s, t, th, c).Some?
    ensures Lightens(th.pc, StatusStep(cfg, s, t, th, c).value.pc)
  {
  }

  /** Every step, timeouts and failures included, goes down or polls. */
  lemma StepWeighs(cfg: Config, s: State, t: nat, c: Choice)
    requires t < |s.threads| && Step(cfg, s, t, c).Some?
    ensures Lightens(s.threads[t].pc, Step(cfg, s, t, c).value.pc)
  {
    var th := s.threads[t];
    match PhaseOf(th.pc)
    case InStatus => StatusWeighs(cfg, s, t, th, c);
    case InNeeds => NeedsWeighs(cfg, s, t, th, c);
    case InMutate => MutateWeighs(cfg, s, t, th, c);
    case InForward => ForwardWeighs(cfg, s, t, th, c);
  }

  function TotalWeight(ts: seq<Thread>): nat {
    if ts == [] then 0 else Weight(ts[0].pc) + TotalWeight(ts[1..])
  }

  lemma {:induction false} TotalWeightUpdate(ts: seq<Thread>, i: nat, x: Thread)
    requires i < |ts|
    ensures TotalWeight(ts[i := x]) == TotalWeight(ts) - Weight(ts[i].pc) + Weight(x.pc)
    decreases |ts|
  {
    if i == 0 {
      assert ts[i := x][1..] == ts[1..];
    } else {
      assert ts[i := x][1..] == ts[1..][i - 1 := x];
      TotalWeightUpdate(ts[1..], i - 1, x);
    }
  }

  lemma {:induction false} TotalWeightAppend(ts: seq<Thread>, x: Thread)
    ensures TotalWeight(ts + [x]) == TotalWeight(ts) + Weight(x.pc)
    decreases |ts|
  {
    if ts == [] {
      assert ts + [x] == [x];
    } else {
      assert (ts + [x])[1..] == ts[1..] + [x];
      TotalWeightAppend(ts[1..], x);
    }
  }

  /** The thread steps of a run that are not rounds of the wait loop. */
  function Strides(cfg: Config, s: State, actions: seq<Action>): nat
    decreases |actions|
  {
    if actions == [] || Next(cfg, s, actions[0]).None? then 0
    else
      var a, s1 := actions[0], Next(cfg, s, actions[0]).value;
      (if a.Move? && !Polls(s.threads[a.t].pc, s1.threads[a.t].pc) then 1 else 0) + Strides(cfg, s1, actions[1..])
  }

  function Requests(actions: seq<Action>): nat {
    if actions == [] then 0 else (if actions[0].Request? then 1 else 0) + Requests(actions[1..])
  }

  lemma NextWeighs(cfg: Config, s: State, a: Action, s': State)
    requires Next(cfg, s, a) == Some(s')
    ensures a.Move? ==> a.t < |s.threads| && a.t < |s'.threads|
    ensures (if a.Move? && !Polls(s.threads[a.t].pc, s'.threads[a.t].pc) then 1 else 0) + TotalWeight(s'.threads)
            <= TotalWeight(s.threads) + (if a.Request? then 20 else 0)
  {
    match a
    case Move(t, c) =>
      StepWeighs(cfg, s, t, c);
      TotalWeightUpdate(s.threads, t, s'.threads[t]);
      assert s'.threads == s.threads[t := s'.threads[t]];
    case Request(kind, key) => TotalWeightAppend(s.threads, Thread(kind, key, FirstPC(cfg, kind)));
    case _ =>
  }

  lemma {:induction false} RunWeighs(cfg: Config, s: State, actions: seq<Action>, s': State)
    requires Run(cfg, s, actions) == Some(s')
    ensures Strides(cfg, s, actions) + TotalWeight(s'.threads) <= TotalWeight(s.threads) + 20 * Requests(actions)
    decreases |actions|
  {
    if actions != [] {
      var s1 := Next(cfg, s, actions[0]).value;
      NextWeighs(cfg, s, actions[0], s1);
      RunWeighs(cfg, s1, actions[1..], s');
    }
  }

  /** No request runs on and on: in every run, whatever its requests meet, they take
      at most twenty steps each beside polling for a creation in flight. */
  lemma StridesAreBounded(cfg: Config, start: int, actions: seq<Action>, s: State)
    requires Run(cfg, Initial(start), actions) == Some(s)
    ensures Strides(cfg, Initial(start), actions) <= 20 * Requests(actions)
  {
    RunWeighs(cfg, Initial(start), actions, s);
  }
}
