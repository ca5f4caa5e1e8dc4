/** The retry schedule: automatic retries of an item are at least exponentially
    spaced up to the cap, whatever flushes, drops and restarts are interleaved. */
module RetrySchedule {
  import opened Common
  import opened RetryQueue
  import opened RetryRuns
  import opened RetryConservation
  import opened RetryOwnership

  /** The next retry of `x` is not before the sum of all delays so far. */
  predicate Spaced(cfg: Config, x: Item) {
    cfg.Typed() && Sufficient(cfg, x.attempts) ==> x.nextRetry >= x.enqueuedAt + Spacing(cfg, x.attempts)
  }

  predicate Waiting(fate: Fate) {
    fate == Todo || fate == Refused
  }

  /** A job of the processor that has not been delayed yet was due when it was
      taken, and the queued item, if it is still there, has not changed since. */
  ghost predicate Due(s: State, job: Job) {
    Waiting(job.fate) ==>
      && job.item.nextRetry <= s.now
      && forall x :: x in s.items && x.ticket == job.item.ticket ==> x == job.item
  }

  predicate Sends(pass: Pass) {
    pass.automatic && pass.stage.Sending?
  }

  ghost predicate Distinct(jobs: seq<Job>) {
    forall i, j :: 0 <= i < j < |jobs| ==> jobs[i].item.ticket != jobs[j].item.ticket
  }

  ghost predicate Scheduled(cfg: Config, s: State) {
    && (forall x :: x in s.items ==> Spaced(cfg, x))
    && (s.disk.Some? ==> forall x :: x in s.disk.value ==> Spaced(cfg, x))
    && (forall p, q :: 0 <= p < q < |s.passes| ==> !(s.passes[p].automatic && s.passes[p].stage != Closed)
                                                   || !(s.passes[q].automatic && s.passes[q].stage != Closed))
    && (forall p :: 0 <= p < |s.passes| && Sends(s.passes[p]) ==> Distinct(s.passes[p].jobs))
    && (forall p, j :: 0 <= p < |s.passes| && Sends(s.passes[p]) && 0 <= j < |s.passes[p].jobs| ==>
        Due(s, s.passes[p].jobs[j]))
  }

  lemma ScheduledAppend(cfg: Config, s: State, id: Text, load: Payload, pause: nat)
    requires Scheduled(cfg, s) && Tagged(s)
    ensures Scheduled(cfg, Append(cfg, s, id, load, pause))
  {
    var s' := Append(cfg, s, id, load, pause);
    forall p, j | 0 <= p < |s'.passes| && Sends(s'.passes[p]) && 0 <= j < |s'.passes[p].jobs|
      ensures Due(s', s'.passes[p].jobs[j])
    {
      assert Due(s, s.passes[p].jobs[j]);
      assert Tag(s.names, s.passes[p].jobs[j].item);
    }
  }

  /** A state whose queue is part of the old one and whose sends are the same. */
  lemma ScheduledShrink(cfg: Config, s: State, s': State)
    requires Scheduled(cfg, s) && s'.now >= s.now && forall x :: x in s'.items ==> x in s.items
    requires s'.disk == s.disk || (s'.disk.Some? && s'.disk.value == s.items)
    requires |s'.passes| == |s.passes|
    requires forall p :: 0 <= p < |s.passes| ==>
                           (|| s'.passes[p] == s.passes[p]
                            || (!s'.passes[p].stage.Sending? && s'.passes[p].automatic == s.passes[p].automatic
                                && s.passes[p].stage != Closed))
    ensures Scheduled(cfg, s')
  {
    forall p, j | 0 <= p < |s'.passes| && Sends(s'.passes[p]) && 0 <= j < |s'.passes[p].jobs|
      ensures Due(s', s'.passes[p].jobs[j])
    {
      assert Due(s, s.passes[p].jobs[j]);
    }
  }

  /** A job changes its fate and nobody waits more than before. */
  lemma ScheduledJob(cfg: Config, s: State, s': State, p: nat, j: nat, fate: Fate)
    requires Scheduled(cfg, s) && IsJob(s, p, j) && s'.now == s.now && s'.items == s.items && s'.disk == s.disk
    requires |s'.passes| == |s.passes| && forall q :: 0 <= q < |s.passes| && q != p ==> s'.passes[q] == s.passes[q]
    requires s'.passes[p].automatic == s.passes[p].automatic && s'.passes[p].stage == s.passes[p].stage
    requires s'.passes[p].jobs == s.passes[p].jobs[j := s.passes[p].jobs[j].(fate := fate)]
    requires Waiting(fate) ==> Waiting(s.passes[p].jobs[j].fate)
    ensures Scheduled(cfg, s')
  {
    forall q, i | 0 <= q < |s'.passes| && Sends(s'.passes[q]) && 0 <= i < |s'.passes[q].jobs|
      ensures Due(s', s'.passes[q].jobs[i])
    {
      assert Due(s, s.passes[q].jobs[i]);
    }
  }

  lemma ScheduledBegin(cfg: Config, s: State, s': State)
    requires cfg.maxSize >= 1 && Scheduled(cfg, s) && Conserved(cfg, s) && Next(cfg, s, BeginAuto) == Some(s')
    ensures Scheduled(cfg, s')
  {
    var ready := RetryQueue.Ready(s.items, s.now);
    if ready != [] {
      var n := |s.passes|;
      var jobs := s'.passes[n].jobs;
      OrderedReady(s.items, s.now, 0, s.start, s.nextTicket, s.now);
      forall i, j | 0 <= i < j < |jobs|
        ensures jobs[i].item.ticket != jobs[j].item.ticket
      {
        OrderedPair(ready, 0, s.start, s.nextTicket, s.now, i, j);
      }
      forall j | 0 <= j < |jobs|
        ensures Due(s', jobs[j])
      {
        ReadyIff(s.items, s.now, ready[j]);
        forall x | x in s.items && x.ticket == ready[j].ticket
          ensures x == ready[j]
        {
          SameTicketSameItem(s, x, ready[j]);
        }
      }
    }
  }

  lemma SameTicketSameItem(s: State, x: Item, y: Item)
    requires Sorted(s) && x in s.items && y in s.items && x.ticket == y.ticket
    ensures x == y
  {
    var i :| 0 <= i < |s.items| && s.items[i] == x;
    var j :| 0 <= j < |s.items| && s.items[j] == y;
    if i < j {
      OrderedPair(s.items, 0, s.start, s.nextTicket, s.now, i, j);
    } else if j < i {
      OrderedPair(s.items, 0, s.start, s.nextTicket, s.now, j, i);
    }
  }

  /** One more failure of a due item keeps the spacing. */
  lemma DelayKeepsSpacing(cfg: Config, x: Item, now: int)
    requires Spaced(cfg, x) && x.nextRetry <= now
    ensures Spaced(cfg, x.(attempts := x.attempts + 1, nextRetry := now + Backoff(cfg, x.attempts + 1)))
  {
    if cfg.Typed() && Sufficient(cfg, x.attempts + 1) {
      SufficientBelow(cfg, x.attempts, x.attempts + 1);
      BackoffSufficesIff(cfg, x.attempts + 1);
    }
  }

  /** What incrementAttempt leaves in the queue: every item as it was, or due
      and delayed once more. */
  lemma DelayedItems(cfg: Config, s: State, p: nat, j: nat, y: Item)
    requires Scheduled(cfg, s) && Tagged(s) && IsJob(s, p, j) && s.passes[p].automatic
    requires s.passes[p].jobs[j].fate == Refused
    requires y in RetryQueue.Bumped(cfg, s.items, s.passes[p].jobs[j].item.id, s.now)
    ensures Spaced(cfg, y)
    ensures y in s.items || y.ticket == s.passes[p].jobs[j].item.ticket
  {
    var job := s.passes[p].jobs[j];
    BumpedMember(cfg, s.items, job.item.id, s.now, y);
    var x :| x in s.items && (y == x || (x.id == job.item.id
               && y == x.(attempts := x.attempts + 1, nextRetry := s.now + Backoff(cfg, x.attempts + 1))));
    if y != x {
      assert Tag(s.names, x) && Tag(s.names, s.passes[p].jobs[j].item);
      assert Due(s, s.passes[p].jobs[j]);
      DelayKeepsSpacing(cfg, x, s.now);
    }
  }

  lemma ScheduledDelay(cfg: Config, s: State, p: nat, j: nat, s': State)
    requires Scheduled(cfg, s) && Tagged(s) && RefusedIsAutomatic(s)
    requires IsJob(s, p, j) && JobNext(cfg, s, p, j, Delay) == Some(s')
    ensures Scheduled(cfg, s')
  {
    assert s.passes[p].automatic && Distinct(s.passes[p].jobs);
    forall y | y in s'.items
      ensures Spaced(cfg, y)
    {
      DelayedItems(cfg, s, p, j, y);
    }
    forall q, i | 0 <= q < |s'.passes| && Sends(s'.passes[q]) && 0 <= i < |s'.passes[q].jobs|
      ensures Due(s', s'.passes[q].jobs[i])
    {
      assert q == p;
      assert Due(s, s.passes[p].jobs[i]);
      if i != j && Waiting(s.passes[p].jobs[i].fate) {
        forall y | y in s'.items && y.ticket == s'.passes[p].jobs[i].item.ticket
          ensures y == s'.passes[p].jobs[i].item
        {
          DelayedItems(cfg, s, p, j, y);
          assert s.passes[p].jobs[i].item.ticket != s.passes[p].jobs[j].item.ticket;
        }
      }
    }
  }

  lemma ScheduledProgress(cfg: Config, s: State, p: nat, j: nat, event: Event, s': State)
    requires Scheduled(cfg, s) && Tagged(s) && RefusedIsAutomatic(s)
    requires IsJob(s, p, j) && JobNext(cfg, s, p, j, event) == Some(s')
    ensures Scheduled(cfg, s')
  {
    if event.Delay? {
      ScheduledDelay(cfg, s, p, j, s');
    } else {
      ScheduledJob(cfg, s, s', p, j, s'.passes[p].jobs[j].fate);
    }
  }

  /** Only the processor goes through incrementAttempt. */
  ghost predicate RefusedIsAutomatic(s: State) {
    forall p, j :: 0 <= p < |s.passes| && 0 <= j < |s.passes[p].jobs| && s.passes[p].jobs[j].fate == Refused ==>
        s.passes[p].automatic
  }

  lemma RefusedJob(cfg: Config, s: State, p: nat, j: nat, event: Event, s': State)
    requires RefusedIsAutomatic(s) && IsJob(s, p, j) && JobNext(cfg, s, p, j, event) == Some(s')
    ensures RefusedIsAutomatic(s')
  {
  }

  lemma RefusedStep(cfg: Config, s: State, a: Action, s': State)
    requires cfg.maxSize >= 1 && RefusedIsAutomatic(s) && Next(cfg, s, a) == Some(s')
    ensures RefusedIsAutomatic(s')
  {
    if a.Progress? {
      RefusedJob(cfg, s, a.p, a.j, a.event, s');
    }
  }

  lemma ScheduledPush(cfg: Config, s: State, id: Text, load: Payload, pause: nat)
    requires cfg.maxSize >= 1 && Scheduled(cfg, s) && Tagged(s)
    ensures Scheduled(cfg, Enqueue(cfg, s, id, load, pause))
  {
    if |s.items| >= cfg.maxSize {
      TaggedDrop(s);
      ScheduledShrink(cfg, s, DropOldest(s));
      ScheduledAppend(cfg, DropOldest(s), id, load, pause);
    } else {
      ScheduledAppend(cfg, s, id, load, pause);
    }
  }

  lemma ScheduledFinish(cfg: Config, s: State, p: nat)
    requires Scheduled(cfg, s) && p < |s.passes| && s.passes[p].stage.Sending?
    ensures Scheduled(cfg, RemoveAccepted(cfg, s, p))
  {
    var s' := RemoveAccepted(cfg, s, p);
    forall x | x in s'.items
      ensures x in s.items
    {
      WithoutIff(s.items, s.passes[p].ok, x);
    }
    ScheduledShrink(cfg, s, s');
  }

  lemma ScheduledFlush(cfg: Config, s: State, pass: Pass)
    requires Scheduled(cfg, s) && !pass.automatic
    ensures Scheduled(cfg, s.(passes := s.passes + [pass]))
  {
    var s' := s.(passes := s.passes + [pass]);
    forall p, j | 0 <= p < |s'.passes| && Sends(s'.passes[p]) && 0 <= j < |s'.passes[p].jobs|
      ensures Due(s', s'.passes[p].jobs[j])
    {
      assert Due(s, s.passes[p].jobs[j]);
    }
  }

  lemma ScheduledStep(cfg: Config, s: State, a: Action, s': State)
    requires cfg.maxSize >= 1 && Scheduled(cfg, s) && Tagged(s) && Conserved(cfg, s) && RefusedIsAutomatic(s)
    requires Next(cfg, s, a) == Some(s')
    ensures Scheduled(cfg, s')
  {
    match a
    case Push(id, load, pause) => ScheduledPush(cfg, s, id, load, pause);
    case BeginAuto => ScheduledBegin(cfg, s, s');
    case BeginFlush => ScheduledFlush(cfg, s, Pass(false, Jobs(s.items), {}, Sending));
    case Progress(p, j, event) => ScheduledProgress(cfg, s, p, j, event, s');
    case Finish(p) => ScheduledFinish(cfg, s, p);
    case Restart =>
    case _ => ScheduledShrink(cfg, s, s');
  }

  lemma {:induction false} ScheduledRun(cfg: Config, s: State, actions: seq<Action>, s': State)
    requires cfg.maxSize >= 1 && Scheduled(cfg, s) && Inv(cfg, s) && RefusedIsAutomatic(s)
    requires FreshIDs(cfg, s, actions) && Run(cfg, s, actions) == Some(s')
    ensures Scheduled(cfg, s') && Inv(cfg, s')
    decreases |actions|
  {
    if actions != [] {
      var a := actions[0];
      var s1 := Next(cfg, s, a).value;
      ScheduledStep(cfg, s, a, s1);
      RefusedStep(cfg, s, a, s1);
      InvStep(cfg, s, a, s1);
      ScheduledRun(cfg, s1, actions[1..], s');
    }
  }

  /** Every queued item keeps NextRetry at or after EnqueuedAt plus the sum of
      the capped exponential delays, as long as its backoff is not cut short. */
  lemma ItemsAreSpaced(cfg: Config, start: int, actions: seq<Action>, s: State, x: Item)
    requires cfg.maxSize >= 1 && FreshIDs(cfg, Initial(start), actions) && Run(cfg, Initial(start), actions) == Some(s)
    requires x in s.items && cfg.Typed() && Sufficient(cfg, x.attempts)
    ensures x.nextRetry >= x.enqueuedAt + Spacing(cfg, x.attempts)
  {
    ScheduledRun(cfg, Initial(start), actions, s);
  }

  /** So the automatic retry number n of an item starts no earlier than the sum
      of the first n + 1 delays after it was enqueued. */
  lemma AutomaticRetriesAreSpaced(cfg: Config, start: int, actions: seq<Action>, s: State, x: Item)
    requires cfg.maxSize >= 1 && FreshIDs(cfg, Initial(start), actions) && Run(cfg, Initial(start), actions) == Some(s)
    requires x in RetryQueue.Ready(s.items, s.now) && cfg.Typed() && Sufficient(cfg, x.attempts)
    ensures x in s.items && s.now >= x.enqueuedAt + Spacing(cfg, x.attempts)
  {
    ReadyIff(s.items, s.now, x);
    ItemsAreSpaced(cfg, start, actions, s, x);
  }
}
