/** What every request does, from its own events: the order in which it may
    look, wait, create, check, send and queue, for each kind of request. */
module AutoCreateStories {
  import opened Common
  import opened ServiceCache
  import opened AutoCreate
  import opened AutoCreateSlots

  predicate By(e: Event, t: nat) {
    match e.what
    case Listed => false
    case Froze(_) => false
    case Removed(who) => who == Some(t)
    case _ => e.what.t == t
  }

  /** The events of thread t, in order. */
  function Own(log: Log, t: nat): Log {
    if log == [] then [] else Own(log[..|log| - 1], t) + (if By(log[|log| - 1], t) then [log[|log| - 1]] else [])
  }

  lemma OwnAppend(log: Log, e: Event, t: nat)
    ensures Own(log + [e], t) == Own(log, t) + (if By(e, t) then [e] else [])
  {
    assert (log + [e])[..|log|] == log;
  }

  /** They are the events of the log that thread t caused. */
  lemma {:induction false} OwnIff(log: Log, t: nat, e: Event)
    ensures e in Own(log, t) <==> e in log && By(e, t)
  {
    if log != [] {
      OwnIff(log[..|log| - 1], t, e);
      assert log == log[..|log| - 1] + [log[|log| - 1]];
    }
  }

  // ---------------------------------------------------------------- words

  /** Event i of the story is this one. */
  predicate At(w: Log, i: int, what: What) {
    0 <= i < |w| && w[i].what == what
  }

  /** needsCreate under way, in the events from `lo` to `hi`: the service was Pending
      whenever it looked, and it went on waiting only before the deadline. */
  predicate Waiting(t: nat, w: Log, lo: int, hi: int) {
    && 0 <= lo < hi <= |w| && w[lo].what == Looked(t, Pending)
    && forall i :: lo <= i < hi ==>
         w[i].what == Looked(t, Pending) || (w[i].what == Slept(t) && w[i].at < w[lo].at + PENDING_WAIT)
  }

  /** needsCreate from beginning to end: it says yes if it finds nothing, or if the
      service is still Pending at the deadline; no if it finds it otherwise. */
  predicate Answer(t: nat, w: Log, lo: int, hi: int, needs: bool) {
    && 0 <= lo < hi <= |w| && (hi - lo > 1 ==> Waiting(t, w, lo, hi - 1))
    && (if needs then w[hi - 1].what == Looked(t, NotFound) || GivesUp(t, w, lo, hi)
        else w[hi - 1].what == Looked(t, Ready) || w[hi - 1].what == Looked(t, PendingDelete))
  }

  predicate GivesUp(t: nat, w: Log, lo: int, hi: int) {
    0 <= lo < hi - 1 < |w| && w[hi - 1].what == Stale(t) && w[hi - 1].at >= w[lo].at + PENDING_WAIT
  }

  /** Needed before the slot, and needed (or not) again under it. */
  ghost predicate Twice(t: nat, w: Log, lo: int, hi: int, needs: bool) {
    exists k :: Answer(t, w, lo, k, true) && Answer(t, w, k, hi, needs)
  }

  /** A creation that was registered or taken back, as its reply demands. */
  predicate Settles(t: nat, w: Log, lo: int, kind: Kind) {
    && At(w, lo, Began(t)) && lo + 2 < |w| && w[lo + 1].what.Replied? && w[lo + 1].what.t == t
    && var reply := w[lo + 1].what.reply;
       w[lo + 2].what == if reply == Created || (kind.Work? && (reply == AlreadyExists || reply == Conflict))
                         then Registered(t) else Removed(Some(t))
  }

  /** ensureServiceExists: found; no slot; found under the slot; or created. */
  ghost predicate Ensured(t: nat, w: Log, lo: int, hi: int) {
    || Answer(t, w, lo, hi, false)
    || (Answer(t, w, lo, hi - 1, true) && At(w, hi - 1, TimedOut(t)))
    || Twice(t, w, lo, hi, false)
    || (Twice(t, w, lo, hi - 3, true) && hi <= |w| && Settles(t, w, hi - 3, Work))
  }

  /** Frozen and skipped; accepted; or refused and queued. */
  predicate Sends(t: nat, w: Log, lo: int, hi: int) {
    || (hi == lo + 1 && At(w, lo, Checked(t, true)))
    || (hi == lo + 2 && At(w, lo, Checked(t, false)) && At(w, lo + 1, Forwarded(t, true)))
    || (hi == lo + 3 && At(w, lo, Checked(t, false)) && At(w, lo + 1, Forwarded(t, false)) && At(w, lo + 2, Queued(t)))
  }

  /** First one, then the other. */
  ghost predicate Handled(t: nat, w: Log, lo: int, hi: int) {
    exists k :: Ensured(t, w, lo, k) && Sends(t, w, k, hi)
  }

  /** The complete story of a work request. */
  ghost predicate WorkStory(cfg: Config, t: nat, w: Log) {
    if !cfg.limited then Handled(t, w, 0, |w|)
    else
      || (|w| == 1 && At(w, 0, Rejected(t)))
      || (|w| == 3 && At(w, 0, Entered(t)) && At(w, 1, Abandoned(t)) && At(w, 2, Left(t)))
      || (At(w, 0, Entered(t)) && Handled(t, w, 1, |w| - 1) && At(w, |w| - 1, Left(t)))
  }

  /** The complete story of a test create. */
  predicate TestStory(t: nat, w: Log) {
    || (|w| == 1 && w[0].what.Looked? && w[0].what.t == t && w[0].what.seen != NotFound)
    || (|w| == 2 && At(w, 0, Looked(t, NotFound)) && At(w, 1, TimedOut(t)))
    || (|w| == 4 && At(w, 0, Looked(t, NotFound)) && Settles(t, w, 1, TestCreate))
  }

  /** The complete story of a deletion. */
  predicate DeletionStory(t: nat, w: Log) {
    || (|w| == 1 && (At(w, 0, TimedOut(t)) || At(w, 0, Deleted(t, false))))
    || (|w| == 2 && At(w, 0, Deleted(t, true)) && At(w, 1, Removed(Some(t))))
  }

  ghost predicate Story(cfg: Config, t: nat, kind: Kind, w: Log) {
    match kind
    case Work => WorkStory(cfg, t, w)
    case TestCreate => TestStory(t, w)
    case Deletion => DeletionStory(t, w)
  }

  // ---------------------------------------------------------------- stories so far

  /** A work request that looks into the cache. */
  ghost predicate Looking(t: nat, pc: PC, w: Log, lo: int) {
    match pc
    case Check(slotted) => if slotted then Answer(t, w, lo, |w|, true) else |w| == lo
    case PollGuard(slotted, deadline) => Polling(t, w, lo, slotted, deadline)
    case PollRead(slotted, deadline) => Polling(t, w, lo, slotted, deadline)
    case _ => false
  }

  ghost predicate Polling(t: nat, w: Log, lo: int, slotted: bool, deadline: int) {
    if slotted then exists k :: Answer(t, w, lo, k, true) && PollsFrom(t, w, k, deadline)
    else PollsFrom(t, w, lo, deadline)
  }

  predicate PollsFrom(t: nat, w: Log, k: int, deadline: int) {
    Waiting(t, w, k, |w|) && deadline == w[k].at + PENDING_WAIT
  }

  /** A work request on its way to the mutate slot or with it. */
  ghost predicate Mutating(t: nat, pc: PC, w: Log, lo: int) {
    match pc
    case AwaitMutate => Answer(t, w, lo, |w|, true)
    case Mark => Twice(t, w, lo, |w|, true)
    case Creating => Twice(t, w, lo, |w| - 1, true) && At(w, |w| - 1, Began(t))
    case Settling(r) =>
      Twice(t, w, lo, |w| - 2, true) && At(w, |w| - 2, Began(t)) && At(w, |w| - 1, Replied(t, r))
    case ReleaseMutate => Ensured(t, w, lo, |w|)
    case _ => false
  }

  /** A work request that is past ensureServiceExists. */
  ghost predicate Forwarding(t: nat, pc: PC, w: Log, lo: int) {
    match pc
    case Forward => Ensured(t, w, lo, |w|)
    case Send => Ensured(t, w, lo, |w| - 1) && At(w, |w| - 1, Checked(t, false))
    case Enqueue =>
      Ensured(t, w, lo, |w| - 2) && At(w, |w| - 2, Checked(t, false)) && At(w, |w| - 1, Forwarded(t, false))
    case _ => false
  }

  /** Before and after all that. */
  ghost predicate Entering(cfg: Config, t: nat, pc: PC, w: Log) {
    match pc
    case Arrive => w == []
    case AwaitStatus => |w| == 1 && At(w, 0, Entered(t))
    case Cancelled => |w| == 2 && At(w, 0, Entered(t)) && At(w, 1, Abandoned(t))
    case ReleaseStatus => At(w, 0, Entered(t)) && Handled(t, w, 1, |w|)
    case Uncount => At(w, 0, Entered(t)) && Handled(t, w, 1, |w|)
    case Done => WorkStory(cfg, t, w)
    case _ => false
  }

  /** Where the story of the request proper begins. */
  function Opening(cfg: Config): int {
    if cfg.limited then 1 else 0
  }

  ghost predicate WorkSoFar(cfg: Config, t: nat, pc: PC, w: Log) {
    var lo := Opening(cfg);
    match PhaseOf(pc)
    case InStatus => Entering(cfg, t, pc, w)
    case InNeeds => (cfg.limited ==> At(w, 0, Entered(t))) && Looking(t, pc, w, lo)
    case InMutate => (cfg.limited ==> At(w, 0, Entered(t))) && Mutating(t, pc, w, lo)
    case InForward => (cfg.limited ==> At(w, 0, Entered(t))) && Forwarding(t, pc, w, lo)
  }

  predicate TestSoFar(t: nat, pc: PC, w: Log) {
    match pc
    case Probe => w == []
    case AwaitMutate => |w| == 1 && At(w, 0, Looked(t, NotFound))
    case Mark => |w| == 1 && At(w, 0, Looked(t, NotFound))
    case Creating => |w| == 2 && At(w, 0, Looked(t, NotFound)) && At(w, 1, Began(t))
    case Settling(r) => |w| == 3 && At(w, 0, Looked(t, NotFound)) && At(w, 1, Began(t)) && At(w, 2, Replied(t, r))
    case ReleaseMutate => |w| == 4 && At(w, 0, Looked(t, NotFound)) && Settles(t, w, 1, TestCreate)
    case Done => TestStory(t, w)
    case _ => false
  }

  predicate DeletionSoFar(t: nat, pc: PC, w: Log) {
    match pc
    case AwaitMutate => w == []
    case Deleting => w == []
    case Removing => |w| == 1 && At(w, 0, Deleted(t, true))
    case ReleaseMutate => DeletionStory(t, w) && !At(w, 0, TimedOut(t))
    case Done => DeletionStory(t, w)
    case _ => false
  }

  ghost predicate SoFar(cfg: Config, t: nat, th: Thread, w: Log) {
    match th.kind
    case Work => WorkSoFar(cfg, t, th.pc, w)
    case TestCreate => TestSoFar(t, th.pc, w)
    case Deletion => DeletionSoFar(t, th.pc, w)
  }

  /** The story after a step. */
  function Onward(w: Log, s: State, th: Thread, e: Effect): Log {
    if e.note.Some? then w + [Event(s.now, th.key, e.note.value)] else w
  }

  // ---------------------------------------------------------------- what was told stays told

  lemma AnswerStays(t: nat, w: Log, lo: int, hi: int, needs: bool, e: Event)
    requires Answer(t, w, lo, hi, needs)
    ensures Answer(t, w + [e], lo, hi, needs)
  {
    assert forall i :: 0 <= i < |w| ==> (w + [e])[i] == w[i];
  }

  lemma TwiceStays(t: nat, w: Log, lo: int, hi: int, needs: bool, e: Event)
    requires Twice(t, w, lo, hi, needs)
    ensures Twice(t, w + [e], lo, hi, needs)
  {
    var k :| Answer(t, w, lo, k, true) && Answer(t, w, k, hi, needs);
    AnswerStays(t, w, lo, k, true, e);
    AnswerStays(t, w, k, hi, needs, e);
  }

  lemma EnsuredStays(t: nat, w: Log, lo: int, hi: int, e: Event)
    requires Ensured(t, w, lo, hi)
    ensures Ensured(t, w + [e], lo, hi)
  {
    if Answer(t, w, lo, hi, false) {
      AnswerStays(t, w, lo, hi, false, e);
    } else if Answer(t, w, lo, hi - 1, true) && At(w, hi - 1, TimedOut(t)) {
      AnswerStays(t, w, lo, hi - 1, true, e);
    } else if Twice(t, w, lo, hi, false) {
      TwiceStays(t, w, lo, hi, false, e);
    } else {
      TwiceStays(t, w, lo, hi - 3, true, e);
    }
  }

  lemma HandledStays(t: nat, w: Log, lo: int, hi: int, e: Event)
    requires Handled(t, w, lo, hi)
    ensures Handled(t, w + [e], lo, hi)
  {
    var k :| Ensured(t, w, lo, k) && Sends(t, w, k, hi);
    EnsuredStays(t, w, lo, k, e);
    assert Sends(t, w + [e], k, hi);
  }

  // ---------------------------------------------------------------- steps of a work request

  /** One more look or wait of a pending needsCreate. */
  lemma WaitOn(t: nat, w: Log, lo: int, e: Event)
    requires Waiting(t, w, lo, |w|)
    requires e.what == Looked(t, Pending) || (e.what == Slept(t) && e.at < w[lo].at + PENDING_WAIT)
    ensures Waiting(t, w + [e], lo, |w| + 1)
  {
    assert forall i :: 0 <= i < |w| ==> (w + [e])[i] == w[i];
  }

  lemma WaitEnds(t: nat, w: Log, lo: int, e: Event)
    requires Waiting(t, w, lo, |w|)
    requires || (e.what.Looked? && e.what.t == t && e.what.seen != Pending)
             || (e.what == Stale(t) && e.at >= w[lo].at + PENDING_WAIT)
    ensures Answer(t, w + [e], lo, |w| + 1, e.what.Stale? || e.what.seen == NotFound)
  {
    assert forall i :: 0 <= i < |w| ==> (w + [e])[i] == w[i];
  }

  /** How one step of needsCreate goes on: by waiting, or with an answer. */
  predicate Continues(cfg: Config, s: State, t: nat, pc: PC, e: Effect)
    requires pc.Check? || pc.PollGuard? || pc.PollRead?
  {
    match e.note
    case Some(Looked(x, seen)) =>
      && x == t && !pc.PollGuard?
      && (if seen == Pending then
            e.pc.PollGuard? && e.pc.slotted == pc.slotted
            && e.pc.deadline == (if pc.Check? then s.now + PENDING_WAIT else pc.deadline)
          else e.pc == AfterNeeds(cfg, pc.slotted, seen == NotFound))
    case Some(Slept(x)) =>
      x == t && pc.PollGuard? && e.pc == PollRead(pc.slotted, pc.deadline) && s.now < pc.deadline
    case Some(Stale(x)) =>
      x == t && pc.PollGuard? && e.pc == AfterNeeds(cfg, pc.slotted, true) && s.now >= pc.deadline
    case _ => false
  }

  lemma NeedsContinues(cfg: Config, s: State, t: nat, th: Thread, c: Choice)
    requires NeedsStep(cfg, s, t, th, c).Some? && !th.pc.Probe?
    ensures (th.pc.Check? || th.pc.PollGuard? || th.pc.PollRead?)
    ensures Continues(cfg, s, t, th.pc, NeedsStep(cfg, s, t, th, c).value)
  {
  }

  /** The answer of the first needsCreate leads here. */
  lemma FirstAnswered(cfg: Config, t: nat, w: Log, needs: bool)
    requires (cfg.limited ==> At(w, 0, Entered(t))) && Answer(t, w, Opening(cfg), |w|, needs)
    ensures WorkSoFar(cfg, t, AfterNeeds(cfg, false, needs), w)
  {
  }

  /** The answer of the second needsCreate leads here. */
  lemma SecondAnswered(cfg: Config, t: nat, w: Log, k: int, needs: bool)
    requires (cfg.limited ==> At(w, 0, Entered(t)))
    requires Answer(t, w, Opening(cfg), k, true) && Answer(t, w, k, |w|, needs)
    ensures WorkSoFar(cfg, t, AfterNeeds(cfg, true, needs), w)
  {
    assert Twice(t, w, Opening(cfg), |w|, needs);
  }

  /** A poll that starts or goes on. */
  lemma PollGoesOn(cfg: Config, t: nat, pc: PC, w: Log, k: int)
    requires pc.PollGuard? || pc.PollRead?
    requires (cfg.limited ==> At(w, 0, Entered(t))) && PollsFrom(t, w, k, pc.deadline)
    requires if pc.slotted then Answer(t, w, Opening(cfg), k, true) else k == Opening(cfg)
    ensures WorkSoFar(cfg, t, pc, w)
  {
  }

  /** The first look of a needsCreate. */
  lemma LookFirst(cfg: Config, s: State, t: nat, th: Thread, e: Effect, w: Log)
    requires th.pc.Check? && WorkSoFar(cfg, t, th.pc, w) && Continues(cfg, s, t, th.pc, e)
    ensures WorkSoFar(cfg, t, e.pc, Onward(w, s, th, e))
  {
    var lo, k := Opening(cfg), |w|;
    var ev := Event(s.now, th.key, e.note.value);
    var w' := w + [ev];
    assert w'[k] == ev && (cfg.limited ==> At(w', 0, Entered(t)));
    if th.pc.slotted {
      AnswerStays(t, w, lo, k, true, ev);
    }
    if ev.what.seen == Pending {
      PollGoesOn(cfg, t, e.pc, w', k);
    } else {
      assert Answer(t, w', k, |w'|, ev.what.seen == NotFound);
      if th.pc.slotted {
        SecondAnswered(cfg, t, w', k, ev.what.seen == NotFound);
      } else {
        FirstAnswered(cfg, t, w', ev.what.seen == NotFound);
      }
    }
  }

  /** A later look, wait or the end of it. */
  lemma LookOn(cfg: Config, s: State, t: nat, th: Thread, e: Effect, w: Log, k: int)
    requires (th.pc.PollGuard? || th.pc.PollRead?) && Continues(cfg, s, t, th.pc, e)
    requires (cfg.limited ==> At(w, 0, Entered(t))) && PollsFrom(t, w, k, th.pc.deadline)
    requires if th.pc.slotted then Answer(t, w, Opening(cfg), k, true) else k == Opening(cfg)
    ensures WorkSoFar(cfg, t, e.pc, Onward(w, s, th, e))
  {
    var ev := Event(s.now, th.key, e.note.value);
    var w' := w + [ev];
    if th.pc.slotted {
      AnswerStays(t, w, Opening(cfg), k, true, ev);
    }
    if ev.what == Looked(t, Pending) || ev.what.Slept? {
      WaitOn(t, w, k, ev);
      PollGoesOn(cfg, t, e.pc, w', k);
    } else {
      WaitEnds(t, w, k, ev);
      if th.pc.slotted {
        SecondAnswered(cfg, t, w', k, ev.what.Stale? || ev.what.seen == NotFound);
      } else {
        FirstAnswered(cfg, t, w', ev.what.Stale? || ev.what.seen == NotFound);
      }
    }
  }

  lemma WorkNeeds(cfg: Config, s: State, t: nat, th: Thread, c: Choice, w: Log)
    requires NeedsStep(cfg, s, t, th, c).Some? && WorkSoFar(cfg, t, th.pc, w)
    ensures var e := NeedsStep(cfg, s, t, th, c).value; WorkSoFar(cfg, t, e.pc, Onward(w, s, th, e))
  {
    var e := NeedsStep(cfg, s, t, th, c).value;
    NeedsContinues(cfg, s, t, th, c);
    if th.pc.Check? {
      LookFirst(cfg, s, t, th, e, w);
    } else if th.pc.slotted {
      var k :| Answer(t, w, Opening(cfg), k, true) && PollsFrom(t, w, k, th.pc.deadline);
      LookOn(cfg, s, t, th, e, w, k);
    } else {
      LookOn(cfg, s, t, th, e, w, Opening(cfg));
    }
  }

  /** Settling a creation completes ensureServiceExists. */
  lemma SettleEnsures(cfg: Config, t: nat, w: Log, r: Reply, e: Event)
    requires Mutating(t, Settling(r), w, Opening(cfg))
    requires e.what == if Confirms(Work, r) then Registered(t) else Removed(Some(t))
    ensures Ensured(t, w + [e], Opening(cfg), |w| + 1)
  {
    TwiceStays(t, w, Opening(cfg), |w| - 2, true, e);
    assert Settles(t, w + [e], |w| - 2, Work);
  }

  lemma TimeoutEnsures(t: nat, w: Log, lo: int, e: Event)
    requires Answer(t, w, lo, |w|, true) && e.what == TimedOut(t)
    ensures Ensured(t, w + [e], lo, |w| + 1)
  {
    AnswerStays(t, w, lo, |w|, true, e);
    assert At(w + [e], |w|, TimedOut(t));
  }

  lemma CreateGoesOn(t: nat, pc: PC, w: Log, lo: int, e: Event, pc': PC)
    requires Mutating(t, pc, w, lo)
    requires || (pc.Mark? && e.what == Began(t) && pc' == Creating)
             || (pc.Creating? && e.what.Replied? && e.what.t == t && pc' == Settling(e.what.reply))
    ensures Mutating(t, pc', w + [e], lo)
  {
    TwiceStays(t, w, lo, if pc.Mark? then |w| else |w| - 1, true, e);
  }

  /** The steps that record something. */
  lemma MutateTells(cfg: Config, s: State, t: nat, th: Thread, c: Choice, w: Log)
    requires MutateStep(cfg, s, t, th, c).Some? && MutateStep(cfg, s, t, th, c).value.note.Some?
    requires th.kind.Work? && Mutating(t, th.pc, w, Opening(cfg))
    ensures var e := MutateStep(cfg, s, t, th, c).value; var w' := Onward(w, s, th, e);
            if e.pc.Forward? then Ensured(t, w', Opening(cfg), |w'|) else Mutating(t, e.pc, w', Opening(cfg))
    ensures var e := MutateStep(cfg, s, t, th, c).value; e.pc.Forward? || PhaseOf(e.pc).InMutate?
  {
    var e := MutateStep(cfg, s, t, th, c).value;
    var ev := Event(s.now, th.key, e.note.value);
    if th.pc.AwaitMutate? {
      TimeoutEnsures(t, w, Opening(cfg), ev);
    } else if th.pc.Settling? {
      SettleEnsures(cfg, t, w, th.pc.reply, ev);
    } else {
      CreateGoesOn(t, th.pc, w, Opening(cfg), ev, e.pc);
    }
  }

  lemma WorkMutate(cfg: Config, s: State, t: nat, th: Thread, c: Choice, w: Log)
    requires MutateStep(cfg, s, t, th, c).Some? && th.kind.Work? && WorkSoFar(cfg, t, th.pc, w)
    ensures var e := MutateStep(cfg, s, t, th, c).value; WorkSoFar(cfg, t, e.pc, Onward(w, s, th, e))
  {
    if MutateStep(cfg, s, t, th, c).value.note.Some? {
      MutateTells(cfg, s, t, th, c, w);
    }
  }

  lemma ForwardTells(cfg: Config, s: State, t: nat, th: Thread, c: Choice, w: Log)
    requires ForwardStep(cfg, s, t, th, c).Some? && Forwarding(t, th.pc, w, Opening(cfg))
    ensures var e := ForwardStep(cfg, s, t, th, c).value; var w' := Onward(w, s, th, e);
            if e.pc == AfterForward(cfg) then Handled(t, w', Opening(cfg), |w'|)
            else Forwarding(t, e.pc, w', Opening(cfg)) && PhaseOf(e.pc).InForward?
  {
    var ev := Event(s.now, th.key, ForwardStep(cfg, s, t, th, c).value.note.value);
    var hi := |w| - (if th.pc.Forward? then 0 else if th.pc.Send? then 1 else 2);
    EnsuredStays(t, w, Opening(cfg), hi, ev);
    if ForwardStep(cfg, s, t, th, c).value.pc == AfterForward(cfg) {
      assert Sends(t, w + [ev], hi, |w| + 1);
    }
  }

  lemma WorkForward(cfg: Config, s: State, t: nat, th: Thread, c: Choice, w: Log)
    requires ForwardStep(cfg, s, t, th, c).Some? && WorkSoFar(cfg, t, th.pc, w)
    ensures var e := ForwardStep(cfg, s, t, th, c).value; WorkSoFar(cfg, t, e.pc, Onward(w, s, th, e))
  {
    ForwardTells(cfg, s, t, th, c, w);
  }

  lemma WorkStatus(cfg: Config, s: State, t: nat, th: Thread, c: Choice, w: Log)
    requires StatusStep(cfg, s, t, th, c).Some? && WellPlaced(cfg, th) && WorkSoFar(cfg, t, th.pc, w)
    ensures var e := StatusStep(cfg, s, t, th, c).value; WorkSoFar(cfg, t, e.pc, Onward(w, s, th, e))
  {
    var e := StatusStep(cfg, s, t, th, c).value;
    if th.pc.Uncount? {
      HandledStays(t, w, 1, |w|, Event(s.now, th.key, e.note.value));
    }
  }

  // ---------------------------------------------------------------- steps of the others

  lemma TestStep(cfg: Config, s: State, t: nat, c: Choice, w: Log)
    requires t < |s.threads| && Step(cfg, s, t, c).Some? && s.threads[t].kind.TestCreate?
    requires WellPlaced(cfg, s.threads[t]) && TestSoFar(t, s.threads[t].pc, w)
    ensures var e := Step(cfg, s, t, c).value; TestSoFar(t, e.pc, Onward(w, s, s.threads[t], e))
  {
    var th := s.threads[t];
    assert PhaseOf(th.pc).InNeeds? || PhaseOf(th.pc).InMutate?;
    if PhaseOf(th.pc).InNeeds? {
      assert NeedsStep(cfg, s, t, th, c).Some?;
    } else {
      assert MutateStep(cfg, s, t, th, c).Some?;
    }
  }

  lemma DeletionStep(cfg: Config, s: State, t: nat, c: Choice, w: Log)
    requires t < |s.threads| && Step(cfg, s, t, c).Some? && s.threads[t].kind.Deletion?
    requires WellPlaced(cfg, s.threads[t]) && DeletionSoFar(t, s.threads[t].pc, w)
    ensures var e := Step(cfg, s, t, c).value; DeletionSoFar(t, e.pc, Onward(w, s, s.threads[t], e))
  {
    var th := s.threads[t];
    assert PhaseOf(th.pc).InMutate?;
    assert MutateStep(cfg, s, t, th, c).Some?;
  }

  lemma WorkStep(cfg: Config, s: State, t: nat, c: Choice, w: Log)
    requires t < |s.threads| && Step(cfg, s, t, c).Some? && s.threads[t].kind.Work?
    requires WellPlaced(cfg, s.threads[t]) && WorkSoFar(cfg, t, s.threads[t].pc, w)
    ensures var e := Step(cfg, s, t, c).value; WorkSoFar(cfg, t, e.pc, Onward(w, s, s.threads[t], e))
  {
    var th := s.threads[t];
    match PhaseOf(th.pc)
    case InStatus => WorkStatus(cfg, s, t, th, c, w);
    case InNeeds => WorkNeeds(cfg, s, t, th, c, w);
    case InMutate => WorkMutate(cfg, s, t, th, c, w);
    case InForward => WorkForward(cfg, s, t, th, c, w);
  }

  lemma SoFarStep(cfg: Config, s: State, t: nat, c: Choice, w: Log)
    requires t < |s.threads| && Step(cfg, s, t, c).Some?
    requires WellPlaced(cfg, s.threads[t]) && SoFar(cfg, t, s.threads[t], w)
    ensures var e := Step(cfg, s, t, c).value;
            SoFar(cfg, t, s.threads[t].(pc := e.pc), Onward(w, s, s.threads[t], e))
  {
    match s.threads[t].kind
    case Work => WorkStep(cfg, s, t, c, w);
    case TestCreate => TestStep(cfg, s, t, c, w);
    case Deletion => DeletionStep(cfg, s, t, c, w);
  }

  // ---------------------------------------------------------------- runs

  predicate Keyed(w: Log, key: Key) {
    forall i :: 0 <= i < |w| ==> w[i].key == key
  }

  ghost predicate Kept(cfg: Config, s: State) {
    && (forall t :: 0 <= t < |s.threads| ==> SoFar(cfg, t, s.threads[t], Own(s.log, t)))
    && (forall t :: t >= |s.threads| ==> Own(s.log, t) == [])
    && (forall t :: 0 <= t < |s.threads| ==> Keyed(Own(s.log, t), s.threads[t].key))
  }

  /** Every note names the thread that takes the step. */
  lemma NotesAreSigned(cfg: Config, s: State, t: nat, c: Choice)
    requires t < |s.threads| && Step(cfg, s, t, c).Some?
    ensures var e := Step(cfg, s, t, c).value;
            e.note.Some? ==> forall u: nat :: By(Event(s.now, s.threads[t].key, e.note.value), u) <==> u == t
  {
    var th := s.threads[t];
    match PhaseOf(th.pc)
    case InStatus => assert StatusStep(cfg, s, t, th, c).Some?;
    case InNeeds => assert NeedsStep(cfg, s, t, th, c).Some?;
    case InMutate => assert MutateStep(cfg, s, t, th, c).Some?;
    case InForward => assert ForwardStep(cfg, s, t, th, c).Some?;
  }

  /** A step adds to the story of its own thread only. */
  lemma OwnMove(cfg: Config, s: State, t: nat, c: Choice, u: nat)
    requires t < |s.threads| && Step(cfg, s, t, c).Some?
    ensures var e := Step(cfg, s, t, c).value;
            Own(Apply(s, t, e).log, u) == if u == t then Onward(Own(s.log, t), s, s.threads[t], e) else Own(s.log, u)
  {
    var e := Step(cfg, s, t, c).value;
    NotesAreSigned(cfg, s, t, c);
    if e.note.Some? {
      OwnAppend(s.log, Event(s.now, s.threads[t].key, e.note.value), u);
    }
  }

  lemma KeptMove(cfg: Config, s: State, t: nat, c: Choice)
    requires Kept(cfg, s) && Placed(cfg, s) && t < |s.threads| && Step(cfg, s, t, c).Some?
    ensures Kept(cfg, Apply(s, t, Step(cfg, s, t, c).value))
  {
    var e := Step(cfg, s, t, c).value;
    var s' := Apply(s, t, e);
    SoFarStep(cfg, s, t, c, Own(s.log, t));
    forall u: nat
      ensures u < |s'.threads| ==>
              SoFar(cfg, u, s'.threads[u], Own(s'.log, u)) && Keyed(Own(s'.log, u), s'.threads[u].key)
      ensures u >= |s'.threads| ==> Own(s'.log, u) == []
    {
      OwnMove(cfg, s, t, c, u);
    }
  }

  lemma KeptRecord(cfg: Config, s: State, key: Key, what: What, s': State)
    requires Kept(cfg, s) && (what.Listed? || what.Froze? || what == Removed(None))
    requires s'.log == s.log + [Event(s.now, key, what)] && s'.threads == s.threads
    ensures Kept(cfg, s')
  {
    forall u: nat
      ensures Own(s'.log, u) == Own(s.log, u)
    {
      OwnAppend(s.log, Event(s.now, key, what), u);
    }
  }

  lemma KeptStep(cfg: Config, s: State, a: Action, s': State)
    requires Kept(cfg, s) && Placed(cfg, s) && Next(cfg, s, a) == Some(s')
    ensures Kept(cfg, s')
  {
    match a
    case Move(t, c) => KeptMove(cfg, s, t, c);
    case Resync(key) => KeptRecord(cfg, s, key, Listed, s');
    case AdminRemove(key) => KeptRecord(cfg, s, key, Removed(None), s');
    case SetFrozen(key, on) => KeptRecord(cfg, s, key, Froze(on), s');
    case _ =>
  }

  lemma {:induction false} KeptRun(cfg: Config, s: State, actions: seq<Action>, s': State)
    requires Kept(cfg, s) && Accounted(cfg, s) && Run(cfg, s, actions) == Some(s')
    ensures Kept(cfg, s')
    decreases |actions|
  {
    if actions != [] {
      var s1 := Next(cfg, s, actions[0]).value;
      AccountedStep(cfg, s, actions[0], s1);
      KeptStep(cfg, s, actions[0], s1);
      KeptRun(cfg, s1, actions[1..], s');
    }
  }

  lemma ReachableIsKept(cfg: Config, s: State)
    requires Reachable(cfg, s)
    ensures Kept(cfg, s)
  {
    var start: int, actions: seq<Action> :| Run(cfg, Initial(start), actions) == Some(s);
    KeptRun(cfg, Initial(start), actions, s);
  }

  /** In every run, the events of a finished request make up a complete story. */
  lemma RequestsTellTheirStory(cfg: Config, s: State, t: nat)
    requires Reachable(cfg, s) && t < |s.threads| && s.threads[t].pc.Done?
    ensures Story(cfg, t, s.threads[t].kind, Own(s.log, t))
  {
    ReachableIsKept(cfg, s);
  }

  // ---------------------------------------------------------------- what became of a request

  /** How a work request can end. */
  predicate Ending(what: What) {
    what.Rejected? || what.Abandoned? || (what.Checked? && what.frozen) || what.Forwarded?
  }

  predicate Quiet(w: Log, lo: int, hi: int) {
    forall i :: 0 <= lo <= i < hi <= |w| ==> !Ending(w[i].what) && !w[i].what.Checked? && !w[i].what.Queued?
  }

  lemma TwiceQuiet(t: nat, w: Log, lo: int, hi: int, needs: bool)
    requires Twice(t, w, lo, hi, needs)
    ensures 0 <= lo < hi <= |w| && Quiet(w, lo, hi)
  {
    var k :| Answer(t, w, lo, k, true) && Answer(t, w, k, hi, needs);
    assert Quiet(w, lo, k) && Quiet(w, k, hi);
  }

  lemma EnsuredQuiet(t: nat, w: Log, lo: int, hi: int)
    requires Ensured(t, w, lo, hi)
    ensures 0 <= lo < hi <= |w| && Quiet(w, lo, hi)
  {
    if Answer(t, w, lo, hi, false) {
      assert Quiet(w, lo, hi);
    } else if Answer(t, w, lo, hi - 1, true) && At(w, hi - 1, TimedOut(t)) {
      assert Quiet(w, lo, hi - 1);
    } else if Twice(t, w, lo, hi, false) {
      TwiceQuiet(t, w, lo, hi, false);
    } else {
      TwiceQuiet(t, w, lo, hi - 3, true);
    }
  }

  /** Exactly one ending; an unfrozen check is followed by the send, and a refused
      send, and nothing else, by queueing the result. */
  ghost predicate EndsOnce(w: Log, lo: int, hi: int) {
    && 0 <= lo <= hi <= |w|
    && (exists j :: OnlyEnding(w, lo, hi, j))
    && (forall i :: lo <= i < hi && w[i].what.Checked? && !w[i].what.frozen ==>
          i + 1 < hi && w[i + 1].what.Forwarded?)
    && (forall i :: lo <= i < hi && w[i].what.Forwarded? && !w[i].what.accepted ==>
          i + 1 < hi && w[i + 1].what.Queued?)
    && (forall i :: lo <= i < hi && w[i].what.Queued? ==>
          lo <= i - 1 && w[i - 1].what.Forwarded? && !w[i - 1].what.accepted)
  }

  predicate OnlyEnding(w: Log, lo: int, hi: int, j: int) {
    && 0 <= lo <= j < hi <= |w| && Ending(w[j].what)
    && forall i :: lo <= i < hi && i != j ==> !Ending(w[i].what)
  }

  /** A quiet part, a check, and the send with what follows it, if any. */
  lemma QuietEndsOnce(w: Log, lo: int, mid: int, hi: int)
    requires 0 <= lo <= mid < hi <= |w| && Quiet(w, lo, mid) && w[mid].what.Checked?
    requires if w[mid].what.frozen then hi == mid + 1
             else mid + 1 < hi && w[mid + 1].what.Forwarded?
    requires !w[mid].what.frozen && w[mid + 1].what.accepted ==> hi == mid + 2
    requires !w[mid].what.frozen && !w[mid + 1].what.accepted ==> hi == mid + 3 && w[mid + 2].what.Queued?
    ensures EndsOnce(w, lo, hi)
  {
    assert OnlyEnding(w, lo, hi, if w[mid].what.frozen then mid else mid + 1);
  }

  lemma HandledEndsOnce(t: nat, w: Log, lo: int, hi: int)
    requires Handled(t, w, lo, hi)
    ensures EndsOnce(w, lo, hi)
  {
    var k :| Ensured(t, w, lo, k) && Sends(t, w, k, hi);
    EnsuredQuiet(t, w, lo, k);
    QuietEndsOnce(w, lo, k, hi);
  }

  lemma StoryEndsOnce(cfg: Config, t: nat, w: Log)
    requires WorkStory(cfg, t, w)
    ensures EndsOnce(w, 0, |w|)
  {
    if !cfg.limited {
      HandledEndsOnce(t, w, 0, |w|);
    } else if |w| == 1 && At(w, 0, Rejected(t)) {
      assert OnlyEnding(w, 0, |w|, 0);
    } else if |w| == 3 && At(w, 0, Entered(t)) && At(w, 1, Abandoned(t)) && At(w, 2, Left(t)) {
      assert OnlyEnding(w, 0, |w|, 1);
    } else {
      HandledEndsOnce(t, w, 1, |w| - 1);
      Widen(t, w);
    }
  }

  lemma Widen(t: nat, w: Log)
    requires EndsOnce(w, 1, |w| - 1) && At(w, 0, Entered(t)) && At(w, |w| - 1, Left(t))
    ensures EndsOnce(w, 0, |w|)
  {
    var j :| OnlyEnding(w, 1, |w| - 1, j);
    assert OnlyEnding(w, 0, |w|, j);
  }

  /** Every finished work request was turned away by the status limiter, found its
      service frozen, or was sent: exactly one of these, exactly once. What the check
      found not frozen was sent; and what was refused, and only that, was queued. All
      its events are about its own service. */
  lemma WorkEndsOnce(cfg: Config, s: State, t: nat)
    requires Reachable(cfg, s) && t < |s.threads| && s.threads[t].pc.Done? && s.threads[t].kind.Work?
    ensures var w := Own(s.log, t); EndsOnce(w, 0, |w|) && forall i :: 0 <= i < |w| ==> w[i].key == s.threads[t].key
  {
    ReachableIsKept(cfg, s);
    StoryEndsOnce(cfg, t, Own(s.log, t));
  }
}
