/** Order and conservation of the retry queue, over all interleavings. */
module RetryConservation {
  import opened Common
  import opened RetryQueue
  import opened RetryRuns

  // ---------------------------------------------------------------- enqueue order

  /** In enqueue order: tickets strictly increase from `low` up to below `high`,
      and enqueue times do not decrease from `from` up to `now`. */
  predicate Ordered(items: seq<Item>, low: nat, from: int, high: nat, now: int) {
    items == [] ||
    (&& low <= items[0].ticket < high && from <= items[0].enqueuedAt <= now
     && Ordered(items[1..], items[0].ticket + 1, items[0].enqueuedAt, high, now))
  }

  lemma {:induction false} OrderedWeaken(items: seq<Item>, low: nat, from: int, high: nat, now: int,
                                         low': nat, from': int, high': nat, now': int)
    requires Ordered(items, low, from, high, now) && low' <= low && from' <= from && high <= high' && now <= now'
    ensures Ordered(items, low', from', high', now')
    decreases |items|
  {
    if items != [] {
      var x := items[0];
      OrderedWeaken(items[1..], x.ticket + 1, x.enqueuedAt, high, now, x.ticket + 1, x.enqueuedAt, high', now');
    }
  }

  lemma {:induction false} OrderedAt(items: seq<Item>, low: nat, from: int, high: nat, now: int, i: nat)
    requires Ordered(items, low, from, high, now) && i < |items|
    ensures low <= items[i].ticket < high && from <= items[i].enqueuedAt <= now
    decreases |items|
  {
    if i > 0 {
      OrderedAt(items[1..], items[0].ticket + 1, items[0].enqueuedAt, high, now, i - 1);
    }
  }

  lemma {:induction false} OrderedPair(items: seq<Item>, low: nat, from: int, high: nat, now: int, i: nat, j: nat)
    requires Ordered(items, low, from, high, now) && i < j < |items|
    ensures items[i].ticket < items[j].ticket && items[i].enqueuedAt <= items[j].enqueuedAt
    decreases |items|
  {
    if i == 0 {
      OrderedAt(items[1..], items[0].ticket + 1, items[0].enqueuedAt, high, now, j - 1);
    } else {
      OrderedPair(items[1..], items[0].ticket + 1, items[0].enqueuedAt, high, now, i - 1, j - 1);
    }
  }

  lemma {:induction false} OrderedAppend(items: seq<Item>, low: nat, from: int, high: nat, now: int, x: Item,
                                         high': nat, now': int)
    requires Ordered(items, low, from, high, now) && low <= high <= x.ticket < high'
    requires from <= now <= x.enqueuedAt <= now'
    ensures Ordered(items + [x], low, from, high', now')
    decreases |items|
  {
    if items == [] {
      assert items + [x] == [x];
    } else {
      assert (items + [x])[1..] == items[1..] + [x];
      OrderedAppend(items[1..], items[0].ticket + 1, items[0].enqueuedAt, high, now, x, high', now');
    }
  }

  lemma {:induction false} OrderedWithout(items: seq<Item>, ids: set<Text>, low: nat, from: int, high: nat, now: int)
    requires Ordered(items, low, from, high, now)
    ensures Ordered(Without(items, ids), low, from, high, now)
    decreases |items|
  {
    if items != [] {
      var x, rest := items[0], Without(items[1..], ids);
      OrderedWithout(items[1..], ids, x.ticket + 1, x.enqueuedAt, high, now);
      if x.id in ids {
        OrderedWeaken(rest, x.ticket + 1, x.enqueuedAt, high, now, low, from, high, now);
        assert [] + rest == rest;
      } else {
        assert ([x] + rest)[1..] == rest;
      }
    }
  }

  lemma {:induction false} OrderedReady(items: seq<Item>, at: int, low: nat, from: int, high: nat, now: int)
    requires Ordered(items, low, from, high, now)
    ensures Ordered(RetryQueue.Ready(items, at), low, from, high, now)
    decreases |items|
  {
    if items != [] {
      var x, rest := items[0], RetryQueue.Ready(items[1..], at);
      OrderedReady(items[1..], at, x.ticket + 1, x.enqueuedAt, high, now);
      if x.nextRetry > at {
        OrderedWeaken(rest, x.ticket + 1, x.enqueuedAt, high, now, low, from, high, now);
        assert [] + rest == rest;
      } else {
        assert ([x] + rest)[1..] == rest;
      }
    }
  }

  lemma {:induction false} OrderedBumped(cfg: Config, items: seq<Item>, id: Text, at: int, low: nat, from: int,
                                         high: nat, now: int)
    requires Ordered(items, low, from, high, now)
    ensures Ordered(RetryQueue.Bumped(cfg, items, id, at), low, from, high, now)
    ensures Tickets(RetryQueue.Bumped(cfg, items, id, at)) == Tickets(items)
    ensures |RetryQueue.Bumped(cfg, items, id, at)| == |items|
    decreases |items|
  {
    if items != [] {
      var x := items[0];
      var out := RetryQueue.Bumped(cfg, items, id, at);
      if x.id == id {
        assert out[1..] == items[1..];
      } else {
        OrderedBumped(cfg, items[1..], id, at, x.ticket + 1, x.enqueuedAt, high, now);
        assert out[1..] == RetryQueue.Bumped(cfg, items[1..], id, at);
      }
    }
  }

  // ---------------------------------------------------------------- tickets of a list

  lemma {:induction false} TicketsBelow(items: seq<Item>, low: nat, from: int, high: nat, now: int, t: nat)
    requires Ordered(items, low, from, high, now) && t in Tickets(items)
    ensures low <= t < high
    decreases |items|
  {
    if t != items[0].ticket {
      TicketsBelow(items[1..], items[0].ticket + 1, items[0].enqueuedAt, high, now, t);
    }
  }

  lemma {:induction false} TicketsCount(items: seq<Item>, low: nat, from: int, high: nat, now: int)
    requires Ordered(items, low, from, high, now)
    ensures |Tickets(items)| == |items|
    decreases |items|
  {
    if items != [] {
      var x := items[0];
      TicketsCount(items[1..], x.ticket + 1, x.enqueuedAt, high, now);
      if x.ticket in Tickets(items[1..]) {
        TicketsBelow(items[1..], x.ticket + 1, x.enqueuedAt, high, now, x.ticket);
      }
    }
  }

  lemma {:induction false} TicketsAppend(items: seq<Item>, x: Item)
    ensures Tickets(items + [x]) == Tickets(items) + {x.ticket}
    decreases |items|
  {
    if items == [] {
      assert items + [x] == [x];
    } else {
      assert (items + [x])[1..] == items[1..] + [x];
      TicketsAppend(items[1..], x);
    }
  }

  lemma {:induction false} TicketsWithout(items: seq<Item>, ids: set<Text>)
    ensures Tickets(Without(items, ids)) <= Tickets(items)
    decreases |items|
  {
    if items != [] {
      TicketsWithout(items[1..], ids);
      var rest := Without(items[1..], ids);
      if items[0].id in ids {
        assert [] + rest == rest;
      } else {
        assert ([items[0]] + rest)[1..] == rest;
      }
    }
  }

  // ---------------------------------------------------------------- conservation

  /** The queue, the removed and the dropped tickets are disjoint and together
      as many as were enqueued or restored; overflow never lets the queue grow
      beyond the configured or the restored length. */
  ghost predicate Conserved(cfg: Config, s: State) {
    && Sorted(s)
    && Tickets(s.items) !! s.removed !! s.dropped
    && (forall t :: t in s.removed || t in s.dropped ==> t < s.nextTicket)
    && s.enqueued + s.restored == |s.items| + |s.dropped| + |s.removed|
    && s.totalDropped == |s.dropped|
    && |s.items| <= Max(cfg.maxSize, s.restored)
  }

  predicate Sorted(s: State) {
    && s.start <= s.now
    && Ordered(s.items, 0, s.start, s.nextTicket, s.now)
    && (s.disk.Some? ==> Ordered(s.disk.value, 0, s.start, s.nextTicket, s.now))
  }

  lemma ConservedDrop(cfg: Config, s: State)
    requires Conserved(cfg, s) && s.items != []
    ensures Conserved(cfg, DropOldest(s))
  {
    var x, rest := s.items[0], s.items[1..];
    OrderedWeaken(rest, x.ticket + 1, x.enqueuedAt, s.nextTicket, s.now, 0, s.start, s.nextTicket, s.now);
    if x.ticket in Tickets(rest) {
      TicketsBelow(rest, x.ticket + 1, x.enqueuedAt, s.nextTicket, s.now, x.ticket);
    }
  }

  lemma ConservedAppend(cfg: Config, s: State, id: Text, load: Payload, pause: nat)
    requires Conserved(cfg, s) && |s.items| < Max(cfg.maxSize, s.restored)
    ensures Conserved(cfg, Append(cfg, s, id, load, pause))
  {
    var s' := Append(cfg, s, id, load, pause);
    var x := s'.items[|s.items|];
    if s.nextTicket in Tickets(s.items) {
      TicketsBelow(s.items, 0, s.start, s.nextTicket, s.now, s.nextTicket);
    }
    OrderedAppend(s.items, 0, s.start, s.nextTicket, s.now, x, s'.nextTicket, s'.now);
    TicketsAppend(s.items, x);
    if s.disk.Some? {
      OrderedWeaken(s.disk.value, 0, s.start, s.nextTicket, s.now, 0, s.start, s'.nextTicket, s'.now);
    }
  }

  lemma ConservedPush(cfg: Config, s: State, id: Text, load: Payload, pause: nat)
    requires cfg.maxSize >= 1 && Conserved(cfg, s)
    ensures Conserved(cfg, Enqueue(cfg, s, id, load, pause))
  {
    if |s.items| >= cfg.maxSize {
      ConservedDrop(cfg, s);
      ConservedAppend(cfg, DropOldest(s), id, load, pause);
    } else {
      ConservedAppend(cfg, s, id, load, pause);
    }
  }

  lemma ConservedFinish(cfg: Config, s: State, p: nat)
    requires Conserved(cfg, s) && p < |s.passes|
    ensures Conserved(cfg, RemoveAccepted(cfg, s, p))
  {
    var s' := RemoveAccepted(cfg, s, p);
    OrderedWithout(s.items, s.passes[p].ok, 0, s.start, s.nextTicket, s.now);
    TicketsCount(s.items, 0, s.start, s.nextTicket, s.now);
    TicketsCount(s'.items, 0, s.start, s.nextTicket, s.now);
    TicketsWithout(s.items, s.passes[p].ok);
    var gone := Tickets(s.items) - Tickets(s'.items);
    assert Tickets(s.items) == Tickets(s'.items) + gone;
    assert |Tickets(s.items)| == |Tickets(s'.items)| + |gone|;
    forall t | t in gone
      ensures t < s.nextTicket
    {
      TicketsBelow(s.items, 0, s.start, s.nextTicket, s.now, t);
    }
  }

  predicate SameBooks(s: State, s': State) {
    && s'.start == s.start && s'.now == s.now && s'.disk == s.disk && s'.nextTicket == s.nextTicket
    && s'.totalDropped == s.totalDropped && s'.enqueued == s.enqueued && s'.restored == s.restored
    && s'.removed == s.removed && s'.dropped == s.dropped && s'.drained == s.drained
    && s.accepted <= s'.accepted
  }

  /** What a send goroutine leaves alone: the books, and all but the schedule of
      the queued items with its ID. */
  lemma JobBooks(cfg: Config, s: State, p: nat, j: nat, event: Event, s': State)
    requires IsJob(s, p, j) && JobNext(cfg, s, p, j, event) == Some(s')
    ensures SameBooks(s, s')
    ensures s'.items == s.items || s'.items == RetryQueue.Bumped(cfg, s.items, s.passes[p].jobs[j].item.id, s.now)
  {
  }

  lemma ConservedFrame(cfg: Config, s: State, s': State, id: Text)
    requires Conserved(cfg, s) && SameBooks(s, s')
    requires s'.items == s.items || s'.items == RetryQueue.Bumped(cfg, s.items, id, s.now)
    ensures Conserved(cfg, s') && Tickets(s'.items) == Tickets(s.items)
  {
    OrderedBumped(cfg, s.items, id, s.now, 0, s.start, s.nextTicket, s.now);
  }

  lemma JobTickets(cfg: Config, s: State, p: nat, j: nat, event: Event, s': State)
    requires Conserved(cfg, s) && IsJob(s, p, j) && JobNext(cfg, s, p, j, event) == Some(s')
    ensures Tickets(s'.items) == Tickets(s.items)
  {
    JobBooks(cfg, s, p, j, event, s');
    OrderedBumped(cfg, s.items, s.passes[p].jobs[j].item.id, s.now, 0, s.start, s.nextTicket, s.now);
  }

  lemma ConservedTick(cfg: Config, s: State, d: nat)
    requires Conserved(cfg, s)
    ensures Conserved(cfg, s.(now := s.now + d))
  {
    OrderedWeaken(s.items, 0, s.start, s.nextTicket, s.now, 0, s.start, s.nextTicket, s.now + d);
    if s.disk.Some? {
      OrderedWeaken(s.disk.value, 0, s.start, s.nextTicket, s.now, 0, s.start, s.nextTicket, s.now + d);
    }
  }

  lemma ConservedPersist(cfg: Config, s: State, p: nat, s': State)
    requires cfg.maxSize >= 1 && Conserved(cfg, s) && Next(cfg, s, Persist(p)) == Some(s')
    ensures Conserved(cfg, s')
  {
  }

  lemma ConservedDrain(cfg: Config, s: State, s': State)
    requires cfg.maxSize >= 1 && Conserved(cfg, s) && Next(cfg, s, Drain) == Some(s')
    ensures Conserved(cfg, s')
  {
  }

  lemma ConservedRestart(cfg: Config, s: State)
    requires Conserved(cfg, s)
    ensures Conserved(cfg, Restarted(s))
  {
  }

  lemma ConservedBegin(cfg: Config, s: State, a: Action, s': State)
    requires cfg.maxSize >= 1 && Conserved(cfg, s) && (a.BeginAuto? || a.BeginFlush?) && Next(cfg, s, a) == Some(s')
    ensures Conserved(cfg, s')
  {
    assert s' == s.(passes := s'.passes);
  }

  lemma ConservedStep(cfg: Config, s: State, a: Action, s': State)
    requires cfg.maxSize >= 1 && Conserved(cfg, s) && Next(cfg, s, a) == Some(s')
    ensures Conserved(cfg, s')
  {
    match a
    case Tick(d) => ConservedTick(cfg, s, d);
    case Push(id, load, pause) => ConservedPush(cfg, s, id, load, pause);
    case Finish(p) => ConservedFinish(cfg, s, p);
    case Progress(p, j, event) =>
      JobBooks(cfg, s, p, j, event, s');
      ConservedFrame(cfg, s, s', s.passes[p].jobs[j].item.id);
    case Persist(p) => ConservedPersist(cfg, s, p, s');
    case Drain => ConservedDrain(cfg, s, s');
    case Restart => ConservedRestart(cfg, s);
    case _ => ConservedBegin(cfg, s, a, s');
  }

  lemma {:induction false} ConservedRun(cfg: Config, s: State, actions: seq<Action>, s': State)
    requires cfg.maxSize >= 1 && Conserved(cfg, s) && Run(cfg, s, actions) == Some(s')
    ensures Conserved(cfg, s')
    decreases |actions|
  {
    if actions != [] {
      var s1 := Next(cfg, s, actions[0]).value;
      ConservedStep(cfg, s, actions[0], s1);
      ConservedRun(cfg, s1, actions[1..], s');
    }
  }

  /** Conservation: at every moment of every run, what was enqueued or restored
      is in the queue, was dropped on overflow, or was removed on success; the
      queue is in enqueue order and bounded; and its head is the oldest item. */
  lemma Conservation(cfg: Config, start: int, actions: seq<Action>, s: State)
    requires cfg.maxSize >= 1 && Run(cfg, Initial(start), actions) == Some(s)
    ensures s.enqueued + s.restored == |s.items| + s.totalDropped + |s.removed|
    ensures forall i, j :: 0 <= i < j < |s.items| ==> s.items[i].ticket < s.items[j].ticket
    ensures |s.items| <= Max(cfg.maxSize, s.restored)
    ensures forall i :: 0 <= i < |s.items| ==> s.items[0].enqueuedAt <= s.items[i].enqueuedAt
  {
    ConservedRun(cfg, Initial(start), actions, s);
    forall i, j | 0 <= i < j < |s.items|
      ensures s.items[i].ticket < s.items[j].ticket && s.items[i].enqueuedAt <= s.items[j].enqueuedAt
    {
      OrderedPair(s.items, 0, s.start, s.nextTicket, s.now, i, j);
    }
  }
}
