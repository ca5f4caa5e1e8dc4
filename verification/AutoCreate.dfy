/** The auto-create protocol: request goroutines of handler/work_mode.go and
    handler/test_mode.go, sharing the service cache, the two semaphores of
    icinga/ratelimiter.go and the `queued` counter.

    A state is shared by any number of threads; each step is one atomic section
    (a cache call, a channel operation, an update of `queued`, an API reply).
    `log` records what happened, in order; it is never read by the program. */
module AutoCreate {
  import opened Common
  import opened ServiceCache

  type Key = Text

  /** Wait bound of needsCreate for somebody else's creation, in nanoseconds. */
  const PENDING_WAIT: int := 10_000_000_000

  datatype Config = Config(limited: bool, mutateCap: nat, statusCap: nat, maxQueue: nat, ttl: int)

  datatype Reply = Created | AlreadyExists | Conflict | OtherError

  datatype Kind = Work | TestCreate | Deletion

  datatype PC =
    | Arrive                                     // before the queue check of AcquireStatus
    | AwaitStatus                                // counted in queued, blocked on statusSem
    | Cancelled                                  // gave up, queued not yet decremented
    | Probe                                      // test create: Exists
    | Check(slotted: bool)                       // needsCreate: first GetState
    | PollGuard(slotted: bool, deadline: int)    // needsCreate: loop test
    | PollRead(slotted: bool, deadline: int)     // needsCreate: GetState after the sleep
    | AwaitMutate                                // blocked on mutateSem
    | Mark                                       // about to SetPending
    | Creating                                   // inside CreateService
    | Settling(reply: Reply)                     // about to Register or Remove
    | Deleting                                   // inside DeleteService
    | Removing                                   // delete succeeded, about to Remove
    | ReleaseMutate                              // about to receive from mutateSem
    | Forward                                    // about to test IsFrozen
    | Send                                       // about to call SendCheckResult
    | Enqueue                                    // send failed, about to queue the result
    | ReleaseStatus                              // about to receive from statusSem
    | Uncount                                    // slot returned, queued not yet decremented
    | Done

  datatype Thread = Thread(kind: Kind, key: Key, pc: PC)

  /** What can happen; `t` is the thread that does it or to which it happens. */
  datatype What =
    | Entered(t: nat)                      // counted in queued
    | Rejected(t: nat)                     // turned away, the queue is full
    | Abandoned(t: nat)                    // gave up waiting for a status slot
    | Left(t: nat)                         // no longer counted in queued
    | Looked(t: nat, seen: ServiceState)   // GetState (or Exists) answered
    | Slept(t: nat)                        // the deadline is not over, wait on
    | Stale(t: nat)                        // the deadline is over, do not wait any longer
    | TimedOut(t: nat)                     // AcquireMutate gave up
    | Began(t: nat)                        // SetPending, followed by the CreateService call
    | Replied(t: nat, reply: Reply)        // CreateService returned
    | Registered(t: nat)                   // Register by the creating thread
    | Deleted(t: nat, ok: bool)            // DeleteService returned
    | Removed(who: Option<nat>)            // Remove by a thread, or by prune or admin
    | Checked(t: nat, frozen: bool)        // IsFrozen answered
    | Forwarded(t: nat, accepted: bool)    // SendCheckResult returned
    | Queued(t: nat)                       // the failed result went to the retry queue
    | Listed                               // Register by the resync, after a managed listing
    | Froze(on: bool)                      // a freeze began or ended

  datatype Event = Event(at: int, key: Key, what: What)

  type Log = seq<Event>

  datatype State = State(
    now: int, entries: Entries, frozen: set<Key>,
    mutateInUse: int, statusInUse: int, queued: int,
    threads: seq<Thread>, log: Log)

  // ---------------------------------------------------------------- cache writes

  predicate Writes(e: Event, k: Key) {
    e.key == k && (e.what.Began? || e.what.Registered? || e.what.Listed? || e.what.Removed?)
  }

  /** The cache after the cache write (if any) that an event stands for. */
  function Write(entries: Entries, e: Event): Entries {
    match e.what
    case Began(_) => entries[e.key := Entry(Pending, e.at)]
    case Registered(_) => entries[e.key := Entry(Ready, e.at)]
    case Listed => entries[e.key := Entry(Ready, e.at)]
    case Removed(_) => entries - {e.key}
    case _ => entries
  }

  // ---------------------------------------------------------------- thread steps

  datatype Choice = Go | GiveUp | Answer(reply: Reply) | Outcome(ok: bool)

  /** What one thread step does: next program point, recorded event, and the
      changes of the two semaphores and of `queued`. */
  datatype Effect = Effect(pc: PC, note: Option<What>, dMutate: int, dStatus: int, dQueued: int)

  function Local(pc: PC): Effect {
    Effect(pc, None, 0, 0, 0)
  }

  function Noted(pc: PC, what: What): Effect {
    Effect(pc, Some(what), 0, 0, 0)
  }

  /** Where the answer of needsCreate leads. */
  function AfterNeeds(cfg: Config, slotted: bool, needs: bool): PC {
    if slotted then (if needs then Mark else ReleaseMutate)
    else if !needs then Forward
    else if cfg.limited then AwaitMutate
    else Check(true)
  }

  function AfterForward(cfg: Config): PC {
    if cfg.limited then ReleaseStatus else Done
  }

  function AfterMutate(th: Thread): PC {
    if th.kind.Work? then Forward else Done
  }

  function Confirms(kind: Kind, reply: Reply): bool {
    if kind.Work? then !reply.OtherError? else reply.Created?
  }

  /** AcquireStatus and ReleaseStatus, in their atomic sections. */
  function StatusStep(cfg: Config, s: State, t: nat, th: Thread, c: Choice): Option<Effect> {
    match (th.pc, c)
    case (Arrive, Go) =>
      if !cfg.limited then Some(Local(Check(false)))
      else if s.queued >= cfg.maxQueue then Some(Noted(Done, Rejected(t)))
      else Some(Effect(AwaitStatus, Some(Entered(t)), 0, 0, 1))
    case (AwaitStatus, Go) =>
      if s.statusInUse < cfg.statusCap then Some(Effect(Check(false), None, 0, 1, 0)) else None
    case (AwaitStatus, GiveUp) => Some(Noted(Cancelled, Abandoned(t)))
    case (Cancelled, Go) => Some(Effect(Done, Some(Left(t)), 0, 0, -1))
    case (ReleaseStatus, Go) => if s.statusInUse > 0 then Some(Effect(Uncount, None, 0, -1, 0)) else None
    case (Uncount, Go) => Some(Effect(Done, Some(Left(t)), 0, 0, -1))
    case _ => None
  }

  /** needsCreate, and the cache probe of a test create. */
  function NeedsStep(cfg: Config, s: State, t: nat, th: Thread, c: Choice): Option<Effect> {
    var seen := Lookup(s.entries, cfg.ttl, s.now, th.key);
    match (th.pc, c)
    case (Probe, Go) =>
      Some(Noted(if seen != NotFound then Done else if cfg.limited then AwaitMutate else Mark, Looked(t, seen)))
    case (Check(slotted), Go) =>
      Some(Noted(if seen == Pending then PollGuard(slotted, s.now + PENDING_WAIT)
                 else AfterNeeds(cfg, slotted, seen == NotFound), Looked(t, seen)))
    case (PollGuard(slotted, deadline), Go) =>
      Some(if s.now < deadline then Noted(PollRead(slotted, deadline), Slept(t))
           else Noted(AfterNeeds(cfg, slotted, true), Stale(t)))
    case (PollRead(slotted, deadline), Go) =>
      Some(Noted(if seen == Pending then PollGuard(slotted, deadline)
                 else AfterNeeds(cfg, slotted, seen == NotFound), Looked(t, seen)))
    case _ => None
  }

  /** Taking the mutate slot, changing Icinga2 and the cache, returning the slot. */
  function MutateStep(cfg: Config, s: State, t: nat, th: Thread, c: Choice): Option<Effect> {
    match (th.pc, c)
    case (AwaitMutate, Go) =>
      if s.mutateInUse < cfg.mutateCap then
        Some(Effect(match th.kind case Work => Check(true) case TestCreate => Mark case Deletion => Deleting,
                    None, 1, 0, 0))
      else None
    case (AwaitMutate, GiveUp) => Some(Noted(AfterMutate(th), TimedOut(t)))
    case (Mark, Go) => Some(Noted(Creating, Began(t)))
    case (Creating, Answer(reply)) => Some(Noted(Settling(reply), Replied(t, reply)))
    case (Settling(reply), Go) =>
      Some(Noted(ReleaseMutate, if Confirms(th.kind, reply) then Registered(t) else Removed(Some(t))))
    case (Deleting, Outcome(ok)) => Some(Noted(if ok then Removing else ReleaseMutate, Deleted(t, ok)))
    case (Removing, Go) => Some(Noted(ReleaseMutate, Removed(Some(t))))
    case (ReleaseMutate, Go) =>
      if !cfg.limited then Some(Local(AfterMutate(th)))
      else if s.mutateInUse > 0 then Some(Effect(AfterMutate(th), None, -1, 0, 0))
      else None
    case _ => None
  }

  /** The freeze check, SendCheckResult, and queueing a failed result. */
  function ForwardStep(cfg: Config, s: State, t: nat, th: Thread, c: Choice): Option<Effect> {
    match (th.pc, c)
    case (Forward, Go) =>
      var frozen := th.key in s.frozen;
      Some(Noted(if frozen then AfterForward(cfg) else Send, Checked(t, frozen)))
    case (Send, Outcome(ok)) => Some(Noted(if ok then AfterForward(cfg) else Enqueue, Forwarded(t, ok)))
    case (Enqueue, Go) => Some(Noted(AfterForward(cfg), Queued(t)))
    case _ => None
  }

  datatype Phase = InStatus | InNeeds | InMutate | InForward

  function PhaseOf(pc: PC): Phase {
    match pc
    case Probe | Check(_) | PollGuard(_, _) | PollRead(_, _) => InNeeds
    case AwaitMutate | Mark | Creating | Settling(_) | Deleting | Removing | ReleaseMutate => InMutate
    case Forward | Send | Enqueue => InForward
    case _ => InStatus
  }

  function Step(cfg: Config, s: State, t: nat, c: Choice): Option<Effect>
    requires t < |s.threads|
  {
    var th := s.threads[t];
    match PhaseOf(th.pc)
    case InStatus => StatusStep(cfg, s, t, th, c)
    case InNeeds => NeedsStep(cfg, s, t, th, c)
    case InMutate => MutateStep(cfg, s, t, th, c)
    case InForward => ForwardStep(cfg, s, t, th, c)
  }

  function Record(s: State, key: Key, what: What): State {
    var e := Event(s.now, key, what);
    s.(log := s.log + [e], entries := Write(s.entries, e))
  }

  function Apply(s: State, t: nat, e: Effect): State
    requires t < |s.threads|
  {
    var th := s.threads[t];
    var s1 := if e.note.Some? then Record(s, th.key, e.note.value) else s;
    s1.(threads := s.threads[t := th.(pc := e.pc)],
        mutateInUse := s.mutateInUse + e.dMutate,
        statusInUse := s.statusInUse + e.dStatus,
        queued := s.queued + e.dQueued)
  }

  // ---------------------------------------------------------------- whole system

  datatype Action =
    | Tick(elapsed: nat)                 // the clock advances
    | Request(kind: Kind, key: Key)      // a request starts its goroutine
    | Move(t: nat, choice: Choice)       // a thread performs its next atomic section
    | Resync(key: Key)                   // resync registers a managed service
    | AdminRemove(key: Key)              // prune or admin removes the entry
    | EvictExpired                       // cache maintenance
    | SetFrozen(key: Key, frozen: bool)  // freeze, unfreeze or end of a freeze

  function FirstPC(cfg: Config, kind: Kind): PC {
    match kind
    case Work => Arrive
    case TestCreate => Probe
    case Deletion => if cfg.limited then AwaitMutate else Deleting
  }

  /** The state after an action, or None when the action is not possible. */
  function Next(cfg: Config, s: State, a: Action): Option<State> {
    match a
    case Tick(d) => Some(s.(now := s.now + d))
    case Request(kind, key) => Some(s.(threads := s.threads + [Thread(kind, key, FirstPC(cfg, kind))]))
    case Move(t, c) =>
      if t >= |s.threads| then None
      else (match Step(cfg, s, t, c) case None => None case Some(e) => Some(Apply(s, t, e)))
    case Resync(key) => Some(Record(s, key, Listed))
    case AdminRemove(key) => Some(Record(s, key, Removed(None)))
    case EvictExpired => Some(s.(entries := Evicted(s.entries, cfg.ttl, s.now)))
    case SetFrozen(key, f) =>
      Some(Record(s, key, Froze(f)).(frozen := if f then s.frozen + {key} else s.frozen - {key}))
  }

  /** A fresh process. */
  function Initial(now: int): State {
    State(now, map[], {}, 0, 0, 0, [], [])
  }

  /** The state reached by a sequence of actions, each of which was possible. */
  function Run(cfg: Config, s: State, actions: seq<Action>): Option<State>
    decreases |actions|
  {
    if actions == [] then Some(s)
    else
      match Next(cfg, s, actions[0])
      case None => None
      case Some(s1) => Run(cfg, s1, actions[1..])
  }

  ghost predicate Reachable(cfg: Config, s: State) {
    exists start: int, actions: seq<Action> :: Run(cfg, Initial(start), actions) == Some(s)
  }

  // ---------------------------------------------------------------- regions of the program

  /** Between SetPending and the Register or Remove that ends the creation. */
  predicate InFlight(th: Thread) {
    th.pc.Creating? || th.pc.Settling?
  }

  predicate HoldsMutate(th: Thread) {
    match th.pc
    case Check(slotted) => slotted
    case PollGuard(slotted, _) => slotted
    case PollRead(slotted, _) => slotted
    case Mark => true
    case Creating => true
    case Settling(_) => true
    case Deleting => true
    case Removing => true
    case ReleaseMutate => true
    case _ => false
  }

  /** A thread that has sent to statusSem and not yet received from it. */
  predicate HoldsStatus(th: Thread) {
    th.kind.Work? && !th.pc.Arrive? && !th.pc.AwaitStatus? && !th.pc.Cancelled? && !th.pc.Uncount? && !th.pc.Done?
  }

  /** A thread counted in `queued`: waiting, holding, or mid-cancel or mid-release. */
  predicate Counted(th: Thread) {
    th.kind.Work? && !th.pc.Arrive? && !th.pc.Done?
  }

  /** A thread that belongs to the program points of its kind. */
  predicate WellPlaced(cfg: Config, th: Thread) {
    && ((th.pc.Probe? || th.pc.Deleting? || th.pc.Removing?) ==> !th.kind.Work?)
    && ((th.pc.Arrive? || th.pc.AwaitStatus? || th.pc.Cancelled? || th.pc.Check? || th.pc.PollGuard? || th.pc.PollRead?
         || th.pc.Forward? || th.pc.Send? || th.pc.Enqueue? || th.pc.ReleaseStatus? || th.pc.Uncount?) ==>
        th.kind.Work?)
    && ((th.pc.Probe? || th.pc.Mark? || th.pc.Creating? || th.pc.Settling?) ==> !th.kind.Deletion?)
    && ((th.pc.AwaitStatus? || th.pc.Cancelled? || th.pc.AwaitMutate? || th.pc.ReleaseStatus? || th.pc.Uncount?) ==>
        cfg.limited)
  }
}
