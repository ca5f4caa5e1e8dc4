/** What a shutdown and a restart bring back. The processor saves after its
    passes, but Flush does not, and Drain does not save an empty queue: the file
    can hold items that have long been accepted and removed. */
module RetryShutdown {
  import opened Common
  import opened RetryQueue
  import opened RetryRuns
  import opened RetryConservation
  import opened RetryOwnership
  import opened RetryScheduleLimits

  /** Whatever is on file is queued, or left the queue since; without a path
      nothing is ever on file. */
  ghost predicate Filed(cfg: Config, s: State) {
    && DiskTickets(s) <= Tickets(s.items) + s.removed + s.dropped
    && (!cfg.persistent ==> s.disk.None?)
    && (forall p :: 0 <= p < |s.passes| && s.passes[p].stage.Saving? ==> cfg.persistent && s.passes[p].automatic)
  }

  lemma FiledPush(cfg: Config, s: State, id: Text, load: Payload, pause: nat)
    requires cfg.maxSize >= 1 && Filed(cfg, s)
    ensures Filed(cfg, Enqueue(cfg, s, id, load, pause))
  {
    var s1 := if |s.items| >= cfg.maxSize then DropOldest(s) else s;
    var s' := Enqueue(cfg, s, id, load, pause);
    TicketsAppend(s1.items, s'.items[|s1.items|]);
  }

  lemma FiledJob(cfg: Config, s: State, p: nat, j: nat, event: Event, s': State)
    requires Conserved(cfg, s) && Filed(cfg, s) && IsJob(s, p, j) && JobNext(cfg, s, p, j, event) == Some(s')
    ensures Filed(cfg, s')
  {
    JobBooks(cfg, s, p, j, event, s');
    JobTickets(cfg, s, p, j, event, s');
    JobStages(cfg, s, p, j, event, s');
  }

  lemma JobStages(cfg: Config, s: State, p: nat, j: nat, event: Event, s': State)
    requires IsJob(s, p, j) && JobNext(cfg, s, p, j, event) == Some(s')
    ensures |s'.passes| == |s.passes|
    ensures forall q :: 0 <= q < |s'.passes| ==>
              s'.passes[q].stage == s.passes[q].stage && s'.passes[q].automatic == s.passes[q].automatic
  {
  }

  lemma FiledFinish(cfg: Config, s: State, p: nat)
    requires Filed(cfg, s) && p < |s.passes|
    ensures Filed(cfg, RemoveAccepted(cfg, s, p))
  {
  }

  lemma FiledStep(cfg: Config, s: State, a: Action, s': State)
    requires cfg.maxSize >= 1 && Conserved(cfg, s) && Filed(cfg, s) && Next(cfg, s, a) == Some(s')
    ensures Filed(cfg, s')
  {
    match a
    case Push(id, load, pause) => FiledPush(cfg, s, id, load, pause);
    case Progress(p, j, event) => FiledJob(cfg, s, p, j, event, s');
    case Finish(p) => FiledFinish(cfg, s, p);
    case _ =>
  }

  lemma {:induction false} FiledRun(cfg: Config, s: State, actions: seq<Action>, s': State)
    requires cfg.maxSize >= 1 && Conserved(cfg, s) && Filed(cfg, s) && Run(cfg, s, actions) == Some(s')
    ensures Conserved(cfg, s') && Filed(cfg, s')
    decreases |actions|
  {
    if actions != [] {
      var s1 := Next(cfg, s, actions[0]).value;
      ConservedStep(cfg, s, actions[0], s1);
      FiledStep(cfg, s, actions[0], s1);
      FiledRun(cfg, s1, actions[1..], s');
    }
  }

  /** In every run, what is on file changes only when the processor saves after a pass
      of its own, or at a Drain that finds something to save. */
  lemma OnlyTheProcessorSaves(cfg: Config, start: int, actions: seq<Action>, s: State, a: Action, s': State)
    requires cfg.maxSize >= 1 && Run(cfg, Initial(start), actions) == Some(s) && Next(cfg, s, a) == Some(s')
    ensures s'.disk != s.disk ==>
              && cfg.persistent && s'.disk == Some(s.items)
              && ((a.Persist? && a.p < |s.passes| && s.passes[a.p].automatic) || (a.Drain? && s.items != []))
  {
    ReachedIsFiled(cfg, start, actions, s);
    if a.Progress? {
      JobBooks(cfg, s, a.p, a.j, a.event, s');
    }
  }

  // ---------------------------------------------------------------- Drain, then New

  /** The queue of the next process, if this one drains and ends now. */
  function AfterShutdown(cfg: Config, s: State): seq<Item>
    requires cfg.maxSize >= 1
  {
    Restarted(Next(cfg, s, Drain).value).items
  }

  lemma ShutdownTickets(cfg: Config, s: State)
    requires cfg.maxSize >= 1 && Conserved(cfg, s) && Filed(cfg, s)
    ensures Tickets(AfterShutdown(cfg, s)) * s.removed == if s.items == [] then DiskTickets(s) - s.dropped else {}
  {
    var back := Tickets(AfterShutdown(cfg, s));
    if s.items == [] {
      assert back == DiskTickets(s) && DiskTickets(s) <= s.removed + s.dropped;
    } else {
      assert back <= Tickets(s.items);
    }
  }

  /** In every run: a shutdown brings back exactly those removed items that are
      still on file when the queue is empty, and were not dropped instead. So it
      brings back none if and only if the queue is not empty or only dropped items
      are on file; and it brings back the same list if and only if there is
      something to save, or nothing on file. */
  lemma DrainRestartIff(cfg: Config, start: int, actions: seq<Action>, s: State)
    requires cfg.maxSize >= 1 && Run(cfg, Initial(start), actions) == Some(s)
    ensures Tickets(AfterShutdown(cfg, s)) * s.removed == if s.items == [] then DiskTickets(s) - s.dropped else {}
    ensures Tickets(AfterShutdown(cfg, s)) !! s.removed <==> s.items != [] || DiskTickets(s) <= s.dropped
    ensures AfterShutdown(cfg, s) == s.items
            <==> (cfg.persistent && s.items != []) || (s.items == [] && (s.disk.None? || s.disk.value == []))
  {
    ReachedIsFiled(cfg, start, actions, s);
    ShutdownTickets(cfg, s);
    ShutdownList(cfg, s);
    DisjointIff(Tickets(AfterShutdown(cfg, s)), s.removed, DiskTickets(s), s.dropped, s.items == []);
  }

  lemma DisjointIff(back: set<nat>, removed: set<nat>, disk: set<nat>, dropped: set<nat>, empty: bool)
    requires back * removed == if empty then disk - dropped else {}
    ensures back !! removed <==> !empty || disk <= dropped
  {
    assert back !! removed <==> back * removed == {};
    if !(disk <= dropped) {
      var d :| d in disk && d !in dropped;
      assert d in disk - dropped;
    }
  }

  lemma ShutdownList(cfg: Config, s: State)
    requires cfg.maxSize >= 1 && Filed(cfg, s)
    ensures AfterShutdown(cfg, s) == s.items
            <==> (cfg.persistent && s.items != []) || (s.items == [] && (s.disk.None? || s.disk.value == []))
  {
  }

  lemma ReachedIsFiled(cfg: Config, start: int, actions: seq<Action>, s: State)
    requires cfg.maxSize >= 1 && Run(cfg, Initial(start), actions) == Some(s)
    ensures Conserved(cfg, s) && Filed(cfg, s)
  {
    FiledRun(cfg, Initial(start), actions, s);
  }

  /** A flush sends the only item, successfully. */
  lemma FlushOne(cfg: Config, actions: seq<Action>, s: State, x: Item)
    returns (actions': seq<Action>, s': State, p: nat)
    requires cfg.maxSize >= 1 && Reaches(cfg, 0, actions, s) && s.items == [x]
    ensures Reaches(cfg, 0, actions', s') && s'.items == [x] && s'.disk == s.disk && s'.removed == s.removed
    ensures p < |s'.passes| && s'.passes[p] == Pass(false, [Job(x, Won)], {x.id}, Sending)
    ensures s'.accepted == s.accepted + {x.ticket}
  {
    p := |s.passes|;
    var a, b := Progress(p, 0, Sent(true)), Progress(p, 0, CountOk);
    var s1 := Next(cfg, s, BeginFlush).value;
    assert Jobs([x]) == [Job(x, Todo)];
    assert s1.passes[p] == Pass(false, [Job(x, Todo)], {}, Sending);
    Extend(cfg, actions, s, BeginFlush, s1);
    var s2 := Next(cfg, s1, a).value;
    assert s2.passes[p].jobs == [Job(x, Accepted)] && s2.passes[p].ok == {x.id};
    Extend(cfg, actions + [BeginFlush], s1, a, s2);
    s' := Next(cfg, s2, b).value;
    assert s'.passes[p].jobs == [Job(x, Won)];
    Extend(cfg, actions + [BeginFlush] + [a], s2, b, s');
    actions' := actions + [BeginFlush] + [a] + [b];
  }

  lemma OneItem(x: Item)
    ensures Without([x], {x.id}) == [] && Tickets([x]) == {x.ticket}
  {
    assert [x][1..] == [];
    assert Tickets([]) == {} && Without([], {x.id}) == [];
    assert Tickets([x]) == {x.ticket} + Tickets([]);
  }

  /** An Enqueue, a refused pass of the processor, which saves, and an accepted
      Flush: an item that Icinga2 has, and that left the queue for it, is queued
      again after the shutdown. */
  lemma AcceptedItemReturns(cfg: Config) returns (actions: seq<Action>, s: State)
    requires cfg.maxSize >= 1 && cfg.persistent
    ensures Reaches(cfg, 0, actions, s) && s.items == []
    ensures s.accepted == s.removed == {0} && Tickets(AfterShutdown(cfg, s)) == {0}
  {
    var first, p;
    actions, s, first := PushOne(cfg);
    var x := Delayed1(cfg, first, Max(s.now, first.nextRetry));
    actions, s := FailOnce(cfg, actions, s, first);
    actions, s, p := FlushOne(cfg, actions, s, x);
    OneItem(x);
    var s1 := RemoveAccepted(cfg, s, p);
    Extend(cfg, actions, s, Finish(p), s1);
    actions, s := actions + [Finish(p)], s1;
  }

  /** No shutdown of any run queues a removed item again. */
  ghost predicate NothingReturns(cfg: Config)
    requires cfg.maxSize >= 1
  {
    forall start: int, actions: seq<Action>, s: State ::
      Reaches(cfg, start, actions, s) ==> Tickets(AfterShutdown(cfg, s)) !! s.removed
  }

  /** That holds if and only if the queue is not kept on disk, even if every item
      has its own ID. */
  lemma NothingReturnsIff(cfg: Config)
    requires cfg.maxSize >= 1
    ensures NothingReturns(cfg) <==> !cfg.persistent
  {
    if cfg.persistent {
      var actions, s := AcceptedItemReturns(cfg);
      assert 0 in Tickets(AfterShutdown(cfg, s)) && 0 in s.removed;
    } else {
      forall start: int, actions: seq<Action>, s: State | Reaches(cfg, start, actions, s)
        ensures Tickets(AfterShutdown(cfg, s)) !! s.removed
      {
        ReachedIsFiled(cfg, start, actions, s);
      }
    }
  }
}
