/** Which items an overflow loses, and when: the oldest ones, and only when the
    queue has no room. */
module RetryDrops {
  import opened Common
  import opened RetryQueue
  import opened RetryRuns
  import opened RetryConservation

  /** Every queued item is younger than every dropped one, and nothing was dropped
      before more items came than fit. */
  ghost predicate Aged(cfg: Config, s: State) {
    && (forall d :: d in s.dropped ==> Ordered(s.items, d + 1, s.start, s.nextTicket, s.now))
    && (s.dropped != {} ==> s.enqueued + s.restored > cfg.maxSize)
  }

  lemma AgedDrop(cfg: Config, s: State)
    requires Conserved(cfg, s) && Aged(cfg, s) && s.items != []
    ensures forall d :: d in DropOldest(s).dropped ==> Ordered(s.items[1..], d + 1, s.start, s.nextTicket, s.now)
  {
    var x, rest := s.items[0], s.items[1..];
    forall d | d in DropOldest(s).dropped
      ensures Ordered(rest, d + 1, s.start, s.nextTicket, s.now)
    {
      OrderedWeaken(rest, x.ticket + 1, x.enqueuedAt, s.nextTicket, s.now, d + 1, s.start, s.nextTicket, s.now);
    }
  }

  lemma AgedAppend(cfg: Config, s: State, id: Text, load: Payload, pause: nat)
    requires Conserved(cfg, s)
    requires forall d :: d in s.dropped ==> Ordered(s.items, d + 1, s.start, s.nextTicket, s.now)
    ensures var s' := Append(cfg, s, id, load, pause);
            forall d :: d in s'.dropped ==> Ordered(s'.items, d + 1, s'.start, s'.nextTicket, s'.now)
  {
    var s' := Append(cfg, s, id, load, pause);
    forall d | d in s'.dropped
      ensures Ordered(s'.items, d + 1, s'.start, s'.nextTicket, s'.now)
    {
      OrderedAppend(s.items, d + 1, s.start, s.nextTicket, s.now, s'.items[|s.items|], s'.nextTicket, s'.now);
    }
  }

  lemma AgedPush(cfg: Config, s: State, id: Text, load: Payload, pause: nat)
    requires cfg.maxSize >= 1 && Conserved(cfg, s) && Aged(cfg, s)
    ensures Aged(cfg, Enqueue(cfg, s, id, load, pause))
  {
    if |s.items| >= cfg.maxSize {
      ConservedDrop(cfg, s);
      AgedDrop(cfg, s);
      AgedAppend(cfg, DropOldest(s), id, load, pause);
    } else {
      AgedAppend(cfg, s, id, load, pause);
    }
  }

  /** The same items, some of them fewer or rescheduled. */
  lemma AgedSame(cfg: Config, s: State, a: Action, s': State)
    requires cfg.maxSize >= 1 && Aged(cfg, s) && Conserved(cfg, s) && Next(cfg, s, a) == Some(s')
    requires a.Tick? || a.Progress? || a.Finish?
    ensures forall d :: d in s'.dropped ==> Ordered(s'.items, d + 1, s'.start, s'.nextTicket, s'.now)
    ensures s'.dropped == s.dropped && s'.enqueued == s.enqueued && s'.restored == s.restored
  {
    if a.Progress? {
      JobBooks(cfg, s, a.p, a.j, a.event, s');
    }
    forall d | d in s'.dropped
      ensures Ordered(s'.items, d + 1, s'.start, s'.nextTicket, s'.now)
    {
      match a
      case Tick(n) => OrderedWeaken(s.items, d + 1, s.start, s.nextTicket, s.now, d + 1, s.start, s.nextTicket, s'.now);
      case Finish(p) => OrderedWithout(s.items, s.passes[p].ok, d + 1, s.start, s.nextTicket, s.now);
      case Progress(p, j, _) =>
        OrderedBumped(cfg, s.items, s.passes[p].jobs[j].item.id, s.now, d + 1, s.start, s.nextTicket, s.now);
    }
  }

  lemma AgedStep(cfg: Config, s: State, a: Action, s': State)
    requires cfg.maxSize >= 1 && Conserved(cfg, s) && Aged(cfg, s) && Next(cfg, s, a) == Some(s')
    ensures Aged(cfg, s')
  {
    match a
    case Push(id, load, pause) => AgedPush(cfg, s, id, load, pause);
    case Tick(_) => AgedSame(cfg, s, a, s');
    case Progress(_, _, _) => AgedSame(cfg, s, a, s');
    case Finish(_) => AgedSame(cfg, s, a, s');
    case _ =>
  }

  lemma {:induction false} AgedRun(cfg: Config, s: State, actions: seq<Action>, s': State)
    requires cfg.maxSize >= 1 && Conserved(cfg, s) && Aged(cfg, s) && Run(cfg, s, actions) == Some(s')
    ensures Aged(cfg, s')
    decreases |actions|
  {
    if actions != [] {
      var s1 := Next(cfg, s, actions[0]).value;
      ConservedStep(cfg, s, actions[0], s1);
      AgedStep(cfg, s, actions[0], s1);
      AgedRun(cfg, s1, actions[1..], s');
    }
  }

  /** In every run, whatever was dropped is older than whatever is still queued; and
      as long as no more items were enqueued or restored than fit, none is dropped. */
  lemma DroppedAreOldest(cfg: Config, start: int, actions: seq<Action>, s: State)
    requires cfg.maxSize >= 1 && Run(cfg, Initial(start), actions) == Some(s)
    ensures forall d, x :: d in s.dropped && x in s.items ==> d < x.ticket
    ensures s.enqueued + s.restored <= cfg.maxSize ==> s.totalDropped == 0
  {
    ConservedRun(cfg, Initial(start), actions, s);
    AgedRun(cfg, Initial(start), actions, s);
    forall d, x | d in s.dropped && x in s.items
      ensures d < x.ticket
    {
      var i :| 0 <= i < |s.items| && s.items[i] == x;
      OrderedAt(s.items, d + 1, s.start, s.nextTicket, s.now, i);
    }
  }
}
