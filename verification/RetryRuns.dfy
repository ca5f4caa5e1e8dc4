/** Runs of the retry queue: Enqueue, the processor's passes, any number of
    concurrent Flush calls, Drain and restarts, interleaved at lock boundaries.

    A pass snapshots items under the lock, sends them outside it from one
    goroutine per item, and takes the lock again to remove what was accepted. */
module RetryRuns {
  import opened Common
  import opened RetryQueue

  /** The life of one send goroutine: the send itself, then (accepted) counting
      it in totalRetried, or (refused, in a processor pass) incrementAttempt and
      counting it in totalFailed. */
  datatype Fate = Todo | Accepted | Refused | Delayed | Won | Lost

  datatype Job = Job(item: Item, fate: Fate)

  datatype Stage = Sending | Saving | Closed

  datatype Pass = Pass(automatic: bool, jobs: seq<Job>, ok: set<Text>, stage: Stage)

  /** The program's variables, followed by bookkeeping that it does not have:
      `start` is when the run began; `names` maps every ticket ever issued to its ID; the ticket sets say, since
      the last start, whose send was accepted, whose acceptance was counted, who
      was removed on success, who was dropped on overflow, and who was in the
      queue at a Drain. */
  datatype State = State(
    start: int, now: int, items: seq<Item>, passes: seq<Pass>,
    totalRetried: nat, totalDropped: nat, totalFailed: nat,
    disk: Option<seq<Item>>,
    nextTicket: nat, names: map<nat, Text>, enqueued: nat, restored: nat,
    accepted: set<nat>, counted: set<nat>, removed: set<nat>, dropped: set<nat>, drained: set<nat>)

  datatype Event =
    | Sent(ok: bool)                             // SendCheckResult returned
    | CountOk                                    // totalRetried.Add(1)
    | Delay                                      // incrementAttempt
    | CountFail                                  // totalFailed.Add(1)

  datatype Action =
    | Tick(elapsed: nat)
    | Push(id: Text, load: Payload, pause: nat)  // Enqueue; `pause` passes between its two clock readings
    | BeginAuto                                  // processReady takes its snapshot
    | BeginFlush                                 // Flush takes its snapshot
    | Progress(p: nat, j: nat, event: Event)     // a send goroutine of pass p goes on
    | Finish(p: nat)                             // after wg.Wait: removeByIDs
    | Persist(p: nat)                            // saveToDisk at the end of processReady
    | Drain
    | Restart                                    // New, reading the file

  function Tickets(items: seq<Item>): set<nat> {
    if items == [] then {} else {items[0].ticket} + Tickets(items[1..])
  }

  function Jobs(items: seq<Item>): seq<Job> {
    seq(|items|, i requires 0 <= i < |items| => Job(items[i], Todo))
  }

  predicate IsJob(s: State, p: nat, j: nat) {
    p < |s.passes| && s.passes[p].stage.Sending? && j < |s.passes[p].jobs|
  }

  function SetJob(s: State, p: nat, j: nat, fate: Fate): seq<Pass>
    requires IsJob(s, p, j)
  {
    var pass := s.passes[p];
    s.passes[p := pass.(jobs := pass.jobs[j := pass.jobs[j].(fate := fate)])]
  }

  predicate AutoRunning(s: State) {
    exists p :: 0 <= p < |s.passes| && s.passes[p].automatic && s.passes[p].stage != Closed
  }

  predicate Settled(pass: Pass) {
    forall j :: 0 <= j < |pass.jobs| ==> pass.jobs[j].fate == Won || pass.jobs[j].fate == Lost
  }

  function DropOldest(s: State): State
    requires s.items != []
  {
    s.(items := s.items[1..], totalDropped := s.totalDropped + 1, dropped := s.dropped + {s.items[0].ticket})
  }

  function Append(cfg: Config, s: State, id: Text, load: Payload, pause: nat): State {
    s.(now := s.now + pause,
       items := s.items + [Item(id, load, s.now, 0, s.now + pause + cfg.base, s.nextTicket)],
       nextTicket := s.nextTicket + 1, names := s.names[s.nextTicket := id], enqueued := s.enqueued + 1)
  }

  function Enqueue(cfg: Config, s: State, id: Text, load: Payload, pause: nat): State
    requires cfg.maxSize >= 1
    ensures Enqueue(cfg, s, id, load, pause).items
            == Pushed(cfg, s.items, Item(id, load, s.now, 0, s.now + pause + cfg.base, s.nextTicket))
  {
    Append(cfg, if |s.items| >= cfg.maxSize then DropOldest(s) else s, id, load, pause)
  }

  function RemoveAccepted(cfg: Config, s: State, p: nat): State
    requires p < |s.passes|
  {
    var pass := s.passes[p];
    var left := Without(s.items, pass.ok);
    s.(items := left, removed := s.removed + (Tickets(s.items) - Tickets(left)),
       passes := s.passes[p := pass.(stage := if pass.automatic && cfg.persistent then Saving else Closed)])
  }

  /** A new process: it only has the file. */
  function Restarted(s: State): State {
    var items := if s.disk.Some? then s.disk.value else [];
    s.(items := items, passes := [], totalRetried := 0, totalDropped := 0, totalFailed := 0,
       enqueued := 0, restored := |items|, accepted := {}, counted := {}, removed := {}, dropped := {}, drained := {})
  }

  function JobNext(cfg: Config, s: State, p: nat, j: nat, event: Event): Option<State>
    requires IsJob(s, p, j)
  {
    var pass := s.passes[p];
    var job := pass.jobs[j];
    match (job.fate, event)
    case (Todo, Sent(true)) =>
      var passes := SetJob(s, p, j, Accepted);
      Some(s.(passes := passes[p := passes[p].(ok := pass.ok + {job.item.id})],
              accepted := s.accepted + {job.item.ticket}))
    case (Todo, Sent(false)) => Some(s.(passes := SetJob(s, p, j, if pass.automatic then Refused else Lost)))
    case (Accepted, CountOk) =>
      Some(s.(passes := SetJob(s, p, j, Won), totalRetried := s.totalRetried + 1,
              counted := s.counted + {job.item.ticket}))
    case (Refused, Delay) =>
      Some(s.(passes := SetJob(s, p, j, Delayed), items := RetryQueue.Bumped(cfg, s.items, job.item.id, s.now)))
    case (Delayed, CountFail) => Some(s.(passes := SetJob(s, p, j, Lost), totalFailed := s.totalFailed + 1))
    case _ => None
  }

  function Next(cfg: Config, s: State, a: Action): Option<State>
    requires cfg.maxSize >= 1
  {
    match a
    case Tick(d) => Some(s.(now := s.now + d))
    case Push(id, load, pause) => Some(Enqueue(cfg, s, id, load, pause))
    case BeginAuto =>
      var ready := RetryQueue.Ready(s.items, s.now);
      if AutoRunning(s) then None
      else if ready == [] then Some(s)
      else Some(s.(passes := s.passes + [Pass(true, Jobs(ready), {}, Sending)]))
    case BeginFlush => Some(s.(passes := s.passes + [Pass(false, Jobs(s.items), {}, Sending)]))
    case Progress(p, j, event) => if IsJob(s, p, j) then JobNext(cfg, s, p, j, event) else None
    case Finish(p) =>
      if p >= |s.passes| || !s.passes[p].stage.Sending? || !Settled(s.passes[p]) then None
      else Some(RemoveAccepted(cfg, s, p))
    case Persist(p) =>
      if p >= |s.passes| || !s.passes[p].stage.Saving? then None
      else Some(s.(disk := Some(s.items), passes := s.passes[p := s.passes[p].(stage := Closed)]))
    case Drain =>
      if !cfg.persistent then Some(s)
      else Some(s.(disk := if s.items != [] then Some(s.items) else s.disk, drained := s.drained + Tickets(s.items)))
    case Restart => Some(Restarted(s))
  }

  function Initial(now: int): State {
    State(now, now, [], [], 0, 0, 0, None, 0, map[], 0, 0, {}, {}, {}, {}, {})
  }

  function Run(cfg: Config, s: State, actions: seq<Action>): Option<State>
    requires cfg.maxSize >= 1
    decreases |actions|
  {
    if actions == [] then Some(s)
    else
      match Next(cfg, s, actions[0])
      case None => None
      case Some(s1) => Run(cfg, s1, actions[1..])
  }

  /** An Enqueue under an ID that was never used before. */
  predicate Fresh(s: State, a: Action) {
    a.Push? ==> a.id !in s.names.Values
  }

  /** The callers give every item its own ID. */
  predicate FreshIDs(cfg: Config, s: State, actions: seq<Action>)
    requires cfg.maxSize >= 1
    decreases |actions|
  {
    actions == [] || (Fresh(s, actions[0]) && match Next(cfg, s, actions[0])
                                              case None => true
                                              case Some(s1) => FreshIDs(cfg, s1, actions[1..]))
  }

  // ---------------------------------------------------------------- building runs

  lemma {:induction false} RunConcat(cfg: Config, s: State, a: seq<Action>, b: seq<Action>, s1: State)
    requires cfg.maxSize >= 1 && Run(cfg, s, a) == Some(s1)
    ensures Run(cfg, s, a + b) == Run(cfg, s1, b)
    decreases |a|
  {
    if a == [] {
      assert a + b == b;
    } else {
      assert (a + b)[1..] == a[1..] + b;
      RunConcat(cfg, Next(cfg, s, a[0]).value, a[1..], b, s1);
    }
  }

  lemma RunOne(cfg: Config, s: State, a: seq<Action>, s1: State, b: Action, s2: State)
    requires cfg.maxSize >= 1 && Run(cfg, s, a) == Some(s1) && Next(cfg, s1, b) == Some(s2)
    ensures Run(cfg, s, a + [b]) == Some(s2)
  {
    RunConcat(cfg, s, a, [b], s1);
    assert [b][1..] == [];
    assert Run(cfg, s2, []) == Some(s2);
  }

  /** A run from a fresh start in which every item has its own ID. */
  ghost predicate Reaches(cfg: Config, start: int, actions: seq<Action>, s: State)
    requires cfg.maxSize >= 1
  {
    Run(cfg, Initial(start), actions) == Some(s) && FreshIDs(cfg, Initial(start), actions)
  }

  lemma {:induction false} FreshOne(cfg: Config, s: State, a: seq<Action>, s1: State, b: Action)
    requires cfg.maxSize >= 1 && Run(cfg, s, a) == Some(s1) && FreshIDs(cfg, s, a) && Fresh(s1, b)
    ensures FreshIDs(cfg, s, a + [b])
    decreases |a|
  {
    if a == [] {
      assert a + [b] == [b] && [b][1..] == [];
    } else {
      assert (a + [b])[0] == a[0] && (a + [b])[1..] == a[1..] + [b];
      FreshOne(cfg, Next(cfg, s, a[0]).value, a[1..], s1, b);
    }
  }

  lemma Extend(cfg: Config, actions: seq<Action>, s: State, b: Action, s': State)
    requires cfg.maxSize >= 1 && Reaches(cfg, 0, actions, s) && Fresh(s, b) && Next(cfg, s, b) == Some(s')
    ensures Reaches(cfg, 0, actions + [b], s')
  {
    RunOne(cfg, Initial(0), actions, s, b, s');
    FreshOne(cfg, Initial(0), actions, s, b);
  }
}
