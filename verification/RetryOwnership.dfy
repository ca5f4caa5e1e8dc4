/** Whose send pays for a removal: with distinct IDs an item leaves the queue on
    success only if its own send was accepted, and a shutdown loses nothing. */
module RetryOwnership {
  import opened Common
  import opened RetryQueue
  import opened RetryRuns
  import opened RetryConservation

  // ---------------------------------------------------------------- lists and names

  /** A ticket that a removal takes away belongs to an item with a removed ID. */
  lemma {:induction false} GoneHasID(items: seq<Item>, ids: set<Text>, t: nat)
    requires t in Tickets(items) && t !in Tickets(Without(items, ids))
    ensures exists x :: x in items && x.ticket == t && x.id in ids
    decreases |items|
  {
    var x, rest := items[0], Without(items[1..], ids);
    if x.id in ids {
      assert [] + rest == rest;
    } else {
      assert ([x] + rest)[1..] == rest;
    }
    if x.ticket == t {
      assert x in items;
    } else {
      GoneHasID(items[1..], ids, t);
      var y :| y in items[1..] && y.ticket == t && y.id in ids;
      assert y in items;
    }
  }

  predicate Tag(names: map<nat, Text>, x: Item) {
    x.ticket in names && names[x.ticket] == x.id
  }

  ghost predicate Tagged(s: State) {
    && (forall x :: x in s.items ==> Tag(s.names, x))
    && (s.disk.Some? ==> forall x :: x in s.disk.value ==> Tag(s.names, x))
    && (forall p, j :: 0 <= p < |s.passes| && 0 <= j < |s.passes[p].jobs| ==> Tag(s.names, s.passes[p].jobs[j].item))
    && (forall t, u :: t in s.names && u in s.names && s.names[t] == s.names[u] ==> t == u)
    && (forall t :: t in s.names ==> t < s.nextTicket)
  }

  /** incrementAttempt changes nothing but the schedule of items with that ID. */
  lemma {:induction false} BumpedMember(cfg: Config, items: seq<Item>, id: Text, at: int, y: Item)
    requires y in RetryQueue.Bumped(cfg, items, id, at)
    ensures exists x :: x in items && (y == x || (x.id == id
              && y == x.(attempts := x.attempts + 1, nextRetry := at + Backoff(cfg, x.attempts + 1))))
    decreases |items|
  {
    var h := items[0];
    assert items == [h] + items[1..];
    if h.id == id {
      var out := RetryQueue.Bumped(cfg, items, id, at);
      assert out[1..] == items[1..];
      if y == out[0] {
        assert h in items;
      } else {
        assert y in items;
      }
    } else if y == h {
      assert h in items;
    } else {
      BumpedMember(cfg, items[1..], id, at, y);
      var x :| x in items[1..] && (y == x || (x.id == id
                 && y == x.(attempts := x.attempts + 1, nextRetry := at + Backoff(cfg, x.attempts + 1))));
      assert x in items;
    }
  }

  lemma TaggedAppend(cfg: Config, s: State, id: Text, load: Payload, pause: nat)
    requires Tagged(s) && id !in s.names.Values
    ensures Tagged(Append(cfg, s, id, load, pause))
  {
    assert forall t :: t in s.names ==> s.names[t] in s.names.Values && t != s.nextTicket;
  }

  lemma TaggedDrop(s: State)
    requires Tagged(s) && s.items != []
    ensures Tagged(DropOldest(s))
  {
  }

  lemma TaggedBegin(s: State, automatic: bool, items: seq<Item>)
    requires Tagged(s) && forall x :: x in items ==> x in s.items
    ensures Tagged(s.(passes := s.passes + [Pass(automatic, Jobs(items), {}, Sending)]))
  {
    assert forall i :: 0 <= i < |items| ==> items[i] in s.items;
  }

  lemma TaggedItems(s: State, s': State)
    requires Tagged(s) && s'.names == s.names && s'.nextTicket == s.nextTicket && s'.disk == s.disk
    requires forall x :: x in s'.items ==> Tag(s.names, x)
    requires |s'.passes| == |s.passes|
    requires forall p :: 0 <= p < |s.passes| ==> |s'.passes[p].jobs| == |s.passes[p].jobs|
    requires forall p, j :: 0 <= p < |s.passes| && 0 <= j < |s.passes[p].jobs| ==>
             s'.passes[p].jobs[j].item == s.passes[p].jobs[j].item
    ensures Tagged(s')
  {
  }

  lemma TaggedJob(cfg: Config, s: State, p: nat, j: nat, event: Event, s': State)
    requires Tagged(s) && IsJob(s, p, j) && JobNext(cfg, s, p, j, event) == Some(s')
    ensures Tagged(s')
  {
    if event.Delay? {
      forall y | y in s'.items
        ensures Tag(s.names, y)
      {
        BumpedMember(cfg, s.items, s.passes[p].jobs[j].item.id, s.now, y);
      }
    }
    TaggedItems(s, s');
  }

  lemma TaggedStep(cfg: Config, s: State, a: Action, s': State)
    requires cfg.maxSize >= 1 && Tagged(s) && Fresh(s, a) && Next(cfg, s, a) == Some(s')
    ensures Tagged(s')
  {
    match a
    case Push(id, load, pause) =>
      if |s.items| >= cfg.maxSize {
        TaggedDrop(s);
        TaggedAppend(cfg, DropOldest(s), id, load, pause);
      } else {
        TaggedAppend(cfg, s, id, load, pause);
      }
    case BeginAuto =>
      var ready := RetryQueue.Ready(s.items, s.now);
      forall x | x in ready
        ensures x in s.items
      {
        ReadyIff(s.items, s.now, x);
      }
      TaggedBegin(s, true, ready);
    case BeginFlush => TaggedBegin(s, false, s.items);
    case Progress(p, j, event) => TaggedJob(cfg, s, p, j, event, s');
    case Finish(p) =>
      forall x | x in s'.items
        ensures Tag(s.names, x)
      {
        WithoutIff(s.items, s.passes[p].ok, x);
      }
      TaggedItems(s, s');
    case _ =>
  }

  // ---------------------------------------------------------------- who was accepted

  predicate Good(fate: Fate) {
    fate == Accepted || fate == Won
  }

  /** Success marks are earned, and only earned IDs are up for removal. */
  ghost predicate Credited(s: State, pass: Pass) {
    && (forall j :: 0 <= j < |pass.jobs| && Good(pass.jobs[j].fate) ==> pass.jobs[j].item.ticket in s.accepted)
    && (forall j :: 0 <= j < |pass.jobs| && pass.jobs[j].fate == Won ==> pass.jobs[j].item.ticket in s.counted)
    && (forall id :: id in pass.ok ==>
        exists j :: 0 <= j < |pass.jobs| && pass.jobs[j].item.id == id && Good(pass.jobs[j].fate))
  }

  ghost predicate Owned(s: State) {
    && (forall p :: 0 <= p < |s.passes| ==> Credited(s, s.passes[p]))
    && s.counted <= s.accepted && |s.counted| <= s.totalRetried && s.removed <= s.counted
  }

  lemma CreditedJob(s: State, s': State, p: nat, j: nat, fate: Fate)
    requires IsJob(s, p, j) && Credited(s, s.passes[p])
    requires s.accepted <= s'.accepted && s.counted <= s'.counted
    requires Good(s.passes[p].jobs[j].fate) ==> Good(fate)
    requires Good(fate) ==> s.passes[p].jobs[j].item.ticket in s'.accepted
    requires fate == Won ==> s.passes[p].jobs[j].item.ticket in s'.counted
    ensures Credited(s', SetJob(s, p, j, fate)[p])
  {
    var old', new' := s.passes[p], SetJob(s, p, j, fate)[p];
    forall id | id in new'.ok
      ensures exists i :: 0 <= i < |new'.jobs| && new'.jobs[i].item.id == id && Good(new'.jobs[i].fate)
    {
      var i :| 0 <= i < |old'.jobs| && old'.jobs[i].item.id == id && Good(old'.jobs[i].fate);
      assert new'.jobs[i].item.id == id && Good(new'.jobs[i].fate);
    }
  }

  /** An accepted send earns its own mark and puts its own ID up for removal. */
  lemma OwnedAccept(cfg: Config, s: State, p: nat, j: nat, s': State)
    requires Owned(s) && IsJob(s, p, j) && JobNext(cfg, s, p, j, Sent(true)) == Some(s')
    ensures Owned(s')
  {
    CreditedJob(s, s', p, j, Accepted);
    var pass := s'.passes[p];
    assert pass.jobs[j].item == s.passes[p].jobs[j].item && Good(pass.jobs[j].fate);
    OthersKeep(s, s', p);
    assert Credited(s', pass);
  }

  lemma OwnedJob(cfg: Config, s: State, p: nat, j: nat, event: Event, s': State)
    requires Owned(s) && IsJob(s, p, j) && JobNext(cfg, s, p, j, event) == Some(s')
    ensures Owned(s')
  {
    if event == Sent(true) {
      OwnedAccept(cfg, s, p, j, s');
    } else {
      var fate := s'.passes[p].jobs[j].fate;
      CreditedJob(s, s', p, j, fate);
      assert s'.passes == SetJob(s, p, j, fate);
      OthersKeep(s, s', p);
    }
  }

  /** What a finished pass removes was accepted, item by item. */
  lemma OwnedFinish(cfg: Config, s: State, p: nat)
    requires Owned(s) && Tagged(s) && p < |s.passes| && Settled(s.passes[p])
    ensures Owned(RemoveAccepted(cfg, s, p))
  {
    var s' := RemoveAccepted(cfg, s, p);
    var pass := s.passes[p];
    assert Credited(s, pass);
    forall t | t in s'.removed
      ensures t in s'.counted
    {
      if t !in s.removed {
        GoneHasID(s.items, pass.ok, t);
        var x :| x in s.items && x.ticket == t && x.id in pass.ok;
        var j :| 0 <= j < |pass.jobs| && pass.jobs[j].item.id == x.id && Good(pass.jobs[j].fate);
        assert Tag(s.names, x) && Tag(s.names, s.passes[p].jobs[j].item);
      }
    }
    forall q | 0 <= q < |s'.passes|
      ensures Credited(s', s'.passes[q])
    {
      assert Credited(s, s.passes[q]);
    }
  }

  lemma OwnedStep(cfg: Config, s: State, a: Action, s': State)
    requires cfg.maxSize >= 1 && Owned(s) && Tagged(s) && Next(cfg, s, a) == Some(s')
    ensures Owned(s')
  {
    match a
    case Progress(p, j, event) => OwnedJob(cfg, s, p, j, event, s');
    case Finish(p) => OwnedFinish(cfg, s, p);
    case Persist(p) =>
      assert Credited(s, s.passes[p]);
      OthersKeep(s, s', p);
    case _ => AllKeep(s, s');
  }

  lemma OthersKeep(s: State, s': State, p: nat)
    requires Owned(s) && s.accepted <= s'.accepted && s.counted <= s'.counted
    requires |s'.passes| == |s.passes| && forall q :: 0 <= q < |s.passes| && q != p ==> s'.passes[q] == s.passes[q]
    ensures forall q :: 0 <= q < |s.passes| && q != p ==> Credited(s', s'.passes[q])
  {
    forall q | 0 <= q < |s.passes| && q != p
      ensures Credited(s', s'.passes[q])
    {
      assert Credited(s, s.passes[q]);
    }
  }

  lemma AllKeep(s: State, s': State)
    requires Owned(s)
    requires s'.passes == [] || (s'.accepted == s.accepted && s'.counted == s.counted)
    requires forall q :: |s.passes| <= q < |s'.passes| ==>
             s'.passes[q].ok == {} && forall j :: 0 <= j < |s'.passes[q].jobs| ==> s'.passes[q].jobs[j].fate == Todo
    requires s'.passes == [] || (|s.passes| <= |s'.passes| && s'.passes[..|s.passes|] == s.passes)
    ensures forall q :: 0 <= q < |s'.passes| ==> Credited(s', s'.passes[q])
  {
    forall q | 0 <= q < |s'.passes|
      ensures Credited(s', s'.passes[q])
    {
      if q < |s.passes| {
        assert s'.passes[q] == s'.passes[..|s.passes|][q];
        assert Credited(s, s.passes[q]);
      }
    }
  }

  // ---------------------------------------------------------------- shutdown

  function DiskTickets(s: State): set<nat> {
    if s.disk.Some? then Tickets(s.disk.value) else {}
  }

  /** An item that was in the queue at a Drain is still queued or left it for a
      reason, and is on disk unless it was accepted or dropped. */
  ghost predicate Sheltered(s: State) {
    && s.drained <= Tickets(s.items) + s.removed + s.dropped
    && s.drained <= DiskTickets(s) + s.accepted + s.dropped
  }

  lemma ShelteredPush(cfg: Config, s: State, id: Text, load: Payload, pause: nat)
    requires cfg.maxSize >= 1 && Sheltered(s)
    ensures Sheltered(Enqueue(cfg, s, id, load, pause))
  {
    var s1 := if |s.items| >= cfg.maxSize then DropOldest(s) else s;
    var s' := Enqueue(cfg, s, id, load, pause);
    TicketsAppend(s1.items, s'.items[|s1.items|]);
  }

  lemma ShelteredFrame(s: State, s': State)
    requires Sheltered(s) && SameBooks(s, s') && Tickets(s'.items) == Tickets(s.items)
    ensures Sheltered(s')
  {
  }

  lemma ShelteredFinish(cfg: Config, s: State, p: nat)
    requires Sheltered(s) && p < |s.passes|
    ensures Sheltered(RemoveAccepted(cfg, s, p))
  {
  }

  lemma ShelteredDisk(cfg: Config, s: State, s': State)
    requires Conserved(cfg, s) && Sheltered(s) && Owned(s)
    requires s'.items == s.items && s'.accepted == s.accepted && s'.removed == s.removed && s'.dropped == s.dropped
    requires s'.drained <= s.drained + Tickets(s.items)
    requires s'.disk == Some(s.items) || (s'.disk == s.disk && (s'.drained == s.drained || s.items == []))
    ensures Sheltered(s')
  {
  }

  lemma ShelteredStep(cfg: Config, s: State, a: Action, s': State)
    requires cfg.maxSize >= 1 && Conserved(cfg, s) && Sheltered(s) && Owned(s) && Next(cfg, s, a) == Some(s')
    ensures Sheltered(s')
  {
    match a
    case Push(id, load, pause) => ShelteredPush(cfg, s, id, load, pause);
    case Progress(p, j, event) =>
      JobBooks(cfg, s, p, j, event, s');
      JobTickets(cfg, s, p, j, event, s');
      ShelteredFrame(s, s');
    case Finish(p) => ShelteredFinish(cfg, s, p);
    case Restart => assert Sheltered(Restarted(s));
    case Persist(p) => ShelteredDisk(cfg, s, s');
    case Drain => ShelteredDisk(cfg, s, s');
    case _ =>
  }

  ghost predicate Inv(cfg: Config, s: State) {
    Conserved(cfg, s) && Tagged(s) && Owned(s) && Sheltered(s)
  }

  lemma InvStep(cfg: Config, s: State, a: Action, s': State)
    requires cfg.maxSize >= 1 && Inv(cfg, s) && Fresh(s, a) && Next(cfg, s, a) == Some(s')
    ensures Inv(cfg, s')
  {
    ConservedStep(cfg, s, a, s');
    TaggedStep(cfg, s, a, s');
    OwnedStep(cfg, s, a, s');
    ShelteredStep(cfg, s, a, s');
  }

  lemma {:induction false} InvRun(cfg: Config, s: State, actions: seq<Action>, s': State)
    requires cfg.maxSize >= 1 && Inv(cfg, s) && FreshIDs(cfg, s, actions) && Run(cfg, s, actions) == Some(s')
    ensures Inv(cfg, s')
    decreases |actions|
  {
    if actions != [] {
      var s1 := Next(cfg, s, actions[0]).value;
      InvStep(cfg, s, actions[0], s1);
      InvRun(cfg, s1, actions[1..], s');
    }
  }

  lemma {:induction false} SubsetSize<T>(a: set<T>, b: set<T>)
    requires a <= b
    ensures |a| <= |b|
  {
    assert b == a + (b - a);
  }

  /** With distinct IDs, an item is removed on success only if its own send was
      accepted, and removals never exceed totalRetried. */
  lemma RemovalsAreOwn(cfg: Config, start: int, actions: seq<Action>, s: State)
    requires cfg.maxSize >= 1 && FreshIDs(cfg, Initial(start), actions) && Run(cfg, Initial(start), actions) == Some(s)
    ensures s.removed <= s.accepted
    ensures |s.removed| <= s.totalRetried
  {
    InvRun(cfg, Initial(start), actions, s);
    SubsetSize(s.removed, s.counted);
  }

  /** A shutdown loses nothing: whatever passes are still running after Drain,
      every drained item is queued again after the restart, unless its send was
      accepted or it was dropped on overflow. */
  lemma DrainedItemsSurvive(cfg: Config, start: int, actions: seq<Action>, s: State)
    requires cfg.maxSize >= 1 && FreshIDs(cfg, Initial(start), actions) && Run(cfg, Initial(start), actions) == Some(s)
    ensures s.drained <= Tickets(Restarted(s).items) + s.accepted + s.dropped
  {
    InvRun(cfg, Initial(start), actions, s);
  }
}
