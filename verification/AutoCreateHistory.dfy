/** What every run of the auto-create protocol keeps: the cache mirrors the log,
    pending entries have a live creator, and no check result is forwarded
    without a reason to believe that its service exists. */
module AutoCreateHistory {
  import opened Common
  import opened ServiceCache
  import opened AutoCreate
  import opened AutoCreateSlots

  /** Index of the last cache write to `k`, or -1. */
  function LastWrite(log: Log, k: Key): (m: int)
    ensures -1 <= m < |log|
    ensures m >= 0 ==> Writes(log[m], k)
  {
    if log == [] then -1
    else if Writes(log[|log| - 1], k) then |log| - 1
    else LastWrite(log[..|log| - 1], k)
  }

  lemma LastWriteAppend(log: Log, e: Event, k: Key)
    ensures LastWrite(log + [e], k) == if Writes(e, k) then |log| else LastWrite(log, k)
  {
    assert (log + [e])[..|log|] == log;
  }

  lemma {:induction false} LastWriteIsLast(log: Log, k: Key, i: nat)
    requires i < |log| && Writes(log[i], k)
    ensures i <= LastWrite(log, k)
    decreases |log|
  {
    var n := |log| - 1;
    if i < n && !Writes(log[n], k) {
      LastWriteIsLast(log[..n], k, i);
    }
  }

  // ---------------------------------------------------------------- reasons

  /** Evidence that the service exists: it was created, it already existed, the
      conflict policy refused to touch it, or Icinga2 listed it as managed. */
  predicate Evidence(e: Event, k: Key) {
    e.key == k && (e.what.Listed? || (e.what.Replied? && !e.what.reply.OtherError?))
  }

  ghost predicate Known(log: Log, k: Key) {
    exists i :: 0 <= i < |log| && Evidence(log[i], k)
  }

  /** The thread itself could not create the service or could not get a slot. */
  predicate Failure(e: Event, t: nat, k: Key) {
    e.key == k && (e.what == TimedOut(t) || e.what == Replied(t, OtherError))
  }

  ghost predicate Excused(log: Log, t: nat, k: Key) {
    exists i :: 0 <= i < |log| && Failure(log[i], t, k)
  }

  ghost predicate Justified(log: Log, t: nat, k: Key) {
    Known(log, k) || Excused(log, t, k)
  }

  predicate IsReply(e: Event, t: nat, k: Key, r: Reply) {
    e.key == k && e.what == Replied(t, r)
  }

  ghost predicate HasReply(log: Log, t: nat, k: Key, r: Reply) {
    exists i :: 0 <= i < |log| && IsReply(log[i], t, k, r)
  }

  lemma ReasonsLast(log: Log, e: Event, t: nat, k: Key)
    ensures Known(log, k) ==> Known(log + [e], k)
    ensures Justified(log, t, k) ==> Justified(log + [e], t, k)
    ensures forall r :: HasReply(log, t, k, r) ==> HasReply(log + [e], t, k, r)
    ensures Failure(e, t, k) ==> Justified(log + [e], t, k)
    ensures forall r :: IsReply(e, t, k, r) ==> HasReply(log + [e], t, k, r)
  {
    var log' := log + [e];
    assert log'[|log|] == e;
    assert forall i :: 0 <= i < |log| ==> log'[i] == log[i];
  }

  lemma KnownPrefix(log: Log, m: nat, k: Key)
    requires m <= |log| && Known(log[..m], k)
    ensures Known(log, k)
  {
    var i :| 0 <= i < m && Evidence(log[..m][i], k);
    assert Evidence(log[i], k);
  }

  // ---------------------------------------------------------------- invariants

  /** Recorded times never decrease and are not in the future. */
  ghost predicate Clocked(s: State) {
    && (forall i :: 0 <= i < |s.log| ==> s.log[i].at <= s.now)
    && (forall i, j :: 0 <= i < j < |s.log| ==> s.log[i].at <= s.log[j].at)
  }

  /** The entry that the last write of a key leaves behind. */
  function Leaves(e: Event): Option<Entry> {
    match e.what
    case Began(_) => Some(Entry(Pending, e.at))
    case Registered(_) => Some(Entry(Ready, e.at))
    case Listed => Some(Entry(Ready, e.at))
    case _ => None
  }

  /** The cache is the last write of each key, except that an expired entry may
      have been evicted. */
  predicate Mirrored(entries: Entries, log: Log, k: Key, ttl: int, now: int) {
    var m := LastWrite(log, k);
    if k in entries then m >= 0 && Leaves(log[m]) == Some(entries[k])
    else m < 0 || log[m].what.Removed? || log[m].at + ttl < now
  }

  ghost predicate Mirrors(cfg: Config, s: State) {
    forall k :: Mirrored(s.entries, s.log, k, cfg.ttl, s.now)
  }

  /** Whenever the last write of a key is a SetPending, its thread is in flight. */
  predicate Flying(threads: seq<Thread>, log: Log, k: Key) {
    var m := LastWrite(log, k);
    m >= 0 && log[m].what.Began? ==>
      var t := log[m].what.t;
      t < |threads| && threads[t].key == k && InFlight(threads[t])
  }

  ghost predicate Flights(s: State) {
    forall k :: Flying(s.threads, s.log, k)
  }

  /** Every registration rests on earlier evidence. */
  ghost predicate Backed(s: State) {
    forall m :: 0 <= m < |s.log| && s.log[m].what.Registered? ==> Known(s.log[..m], s.log[m].key)
  }

  predicate PastEnsure(th: Thread) {
    th.kind.Work? && (th.pc.ReleaseMutate? || th.pc.Forward? || th.pc.Send?)
  }

  ghost predicate Entitled(log: Log, t: nat, th: Thread) {
    && (th.pc.Settling? ==> HasReply(log, t, th.key, th.pc.reply))
    && (PastEnsure(th) ==> Justified(log, t, th.key))
  }

  ghost predicate AllEntitled(s: State) {
    forall t :: 0 <= t < |s.threads| ==> Entitled(s.log, t, s.threads[t])
  }

  /** Every forwarded check result was justified when it was sent. */
  ghost predicate ForwardsJustified(log: Log) {
    forall i :: 0 <= i < |log| && log[i].what.Forwarded? ==> Justified(log[..i], log[i].what.t, log[i].key)
  }

  ghost predicate Inv(cfg: Config, s: State) {
    Clocked(s) && Mirrors(cfg, s) && Flights(s) && Backed(s) && AllEntitled(s) && ForwardsJustified(s.log)
  }

  // ---------------------------------------------------------------- what a thread step may do

  /** The causes of every note and of every program point that matters here. */
  predicate Caused(cfg: Config, s: State, t: nat, th: Thread, e: Effect) {
    var th' := th.(pc := e.pc);
    && (e.note.Some? ==> match e.note.value
          case Began(x) => x == t && InFlight(th')
          case Replied(x, r) => x == t && th.pc.Creating? && e.pc == Settling(r)
          case Registered(x) => th.pc.Settling? && Confirms(th.kind, th.pc.reply)
          case Listed => false
          case Removed(_) => !InFlight(th')
          case TimedOut(x) => x == t
          case Forwarded(x, _) => x == t && PastEnsure(th)
          case Queued(x) => x == t
          case _ => true)
    && (InFlight(th) ==> InFlight(th') || (e.note.Some? && (e.note.value.Registered? || e.note.value.Removed?)))
    && (e.pc.Settling? ==> e.note == Some(Replied(t, e.pc.reply)))
    && (PastEnsure(th') ==>
          || PastEnsure(th)
          || e.note == Some(TimedOut(t))
          || th.pc.Settling?
          || (var seen := Lookup(s.entries, cfg.ttl, s.now, th.key); seen != NotFound && seen != Pending))
  }

  lemma StepCaused(cfg: Config, s: State, t: nat, c: Choice)
    requires t < |s.threads| && WellPlaced(cfg, s.threads[t]) && Step(cfg, s, t, c).Some?
    ensures Caused(cfg, s, t, s.threads[t], Step(cfg, s, t, c).value)
  {
    var th := s.threads[t];
    match PhaseOf(th.pc)
    case InStatus => assert StatusStep(cfg, s, t, th, c).Some?;
    case InNeeds => assert NeedsStep(cfg, s, t, th, c).Some?;
    case InMutate => assert MutateStep(cfg, s, t, th, c).Some?;
    case InForward => assert ForwardStep(cfg, s, t, th, c).Some?;
  }

  // ---------------------------------------------------------------- preservation by a recorded event

  lemma MirrorsRecord(cfg: Config, s: State, key: Key, what: What)
    requires Mirrors(cfg, s)
    ensures Mirrors(cfg, Record(s, key, what))
  {
    var e := Event(s.now, key, what);
    var s' := Record(s, key, what);
    forall k
      ensures Mirrored(s'.entries, s'.log, k, cfg.ttl, s'.now)
    {
      LastWriteAppend(s.log, e, k);
      assert Mirrored(s.entries, s.log, k, cfg.ttl, s.now);
      var m := LastWrite(s.log, k);
      assert m >= 0 ==> s'.log[m] == s.log[m];
    }
  }

  lemma ClockedRecord(s: State, key: Key, what: What)
    requires Clocked(s)
    ensures Clocked(Record(s, key, what))
  {
  }

  lemma BackedRecord(s: State, key: Key, what: What)
    requires Backed(s) && (what.Registered? ==> Known(s.log, key))
    ensures Backed(Record(s, key, what))
  {
    var s' := Record(s, key, what);
    forall m | 0 <= m < |s'.log| && s'.log[m].what.Registered?
      ensures Known(s'.log[..m], s'.log[m].key)
    {
      assert m < |s.log| ==> s'.log[m] == s.log[m] && s'.log[..m] == s.log[..m];
      assert m == |s.log| ==> s'.log[..m] == s.log;
    }
  }

  lemma ForwardsRecord(s: State, key: Key, what: What)
    requires ForwardsJustified(s.log) && (what.Forwarded? ==> Justified(s.log, what.t, key))
    ensures ForwardsJustified(Record(s, key, what).log)
  {
    var log' := Record(s, key, what).log;
    forall i | 0 <= i < |log'| && log'[i].what.Forwarded?
      ensures Justified(log'[..i], log'[i].what.t, log'[i].key)
    {
      assert i < |s.log| ==> log'[i] == s.log[i] && log'[..i] == s.log[..i];
      assert i == |s.log| ==> log'[..i] == s.log;
    }
  }

  /** An entry that reads as Ready is backed by evidence. */
  lemma ReadyIsKnown(cfg: Config, s: State, k: Key)
    requires Mirrors(cfg, s) && Backed(s)
    ensures var seen := Lookup(s.entries, cfg.ttl, s.now, k); seen == NotFound || seen == Pending || Known(s.log, k)
  {
    assert Mirrored(s.entries, s.log, k, cfg.ttl, s.now);
    var m := LastWrite(s.log, k);
    if m >= 0 && s.log[m].what.Registered? {
      KnownPrefix(s.log, m, k);
    } else if m >= 0 && s.log[m].what.Listed? {
      assert Evidence(s.log[m], k);
    }
  }

  // ---------------------------------------------------------------- preservation by a thread step

  lemma FlightsApply(cfg: Config, s: State, t: nat, e: Effect)
    requires t < |s.threads| && Flights(s) && Caused(cfg, s, t, s.threads[t], e)
    ensures Flights(Apply(s, t, e))
  {
    var s' := Apply(s, t, e);
    var th := s.threads[t];
    forall k
      ensures Flying(s'.threads, s'.log, k)
    {
      assert Flying(s.threads, s.log, k);
      var m := LastWrite(s.log, k);
      if e.note.Some? {
        LastWriteAppend(s.log, Event(s.now, th.key, e.note.value), k);
        assert m >= 0 ==> s'.log[m] == s.log[m];
      }
    }
  }

  lemma EntitledApply(cfg: Config, s: State, t: nat, e: Effect)
    requires t < |s.threads| && Caused(cfg, s, t, s.threads[t], e)
    requires AllEntitled(s) && Mirrors(cfg, s) && Backed(s)
    ensures AllEntitled(Apply(s, t, e))
  {
    var s' := Apply(s, t, e);
    var th := s.threads[t];
    ReadyIsKnown(cfg, s, th.key);
    assert Entitled(s.log, t, th);
    if th.pc.Settling? {
      var i :| 0 <= i < |s.log| && IsReply(s.log[i], t, th.key, th.pc.reply);
      assert Evidence(s.log[i], th.key) || Failure(s.log[i], t, th.key);
      assert Justified(s.log, t, th.key);
    }
    forall u | 0 <= u < |s'.threads|
      ensures Entitled(s'.log, u, s'.threads[u])
    {
      assert Entitled(s.log, u, s.threads[u]);
      if e.note.Some? {
        ReasonsLast(s.log, Event(s.now, th.key, e.note.value), u, s'.threads[u].key);
      }
    }
  }

  lemma InvApply(cfg: Config, s: State, t: nat, e: Effect)
    requires t < |s.threads| && Caused(cfg, s, t, s.threads[t], e) && Inv(cfg, s)
    ensures Inv(cfg, Apply(s, t, e))
  {
    var th := s.threads[t];
    FlightsApply(cfg, s, t, e);
    EntitledApply(cfg, s, t, e);
    assert Entitled(s.log, t, th);
    if e.note.Some? {
      var what := e.note.value;
      if what.Registered? {
        var i :| 0 <= i < |s.log| && IsReply(s.log[i], t, th.key, th.pc.reply);
        assert Evidence(s.log[i], th.key);
      }
      ClockedRecord(s, th.key, what);
      MirrorsRecord(cfg, s, th.key, what);
      BackedRecord(s, th.key, what);
      ForwardsRecord(s, th.key, what);
      SameHistory(cfg, Record(s, th.key, what), Apply(s, t, e));
    } else {
      SameHistory(cfg, s, Apply(s, t, e));
    }
  }

  lemma SameHistory(cfg: Config, s: State, s': State)
    requires s'.now == s.now && s'.entries == s.entries && s'.log == s.log
    requires Clocked(s) && Mirrors(cfg, s) && Backed(s) && ForwardsJustified(s.log)
    ensures Clocked(s') && Mirrors(cfg, s') && Backed(s') && ForwardsJustified(s'.log)
  {
    forall k
      ensures Mirrored(s'.entries, s'.log, k, cfg.ttl, s'.now)
    {
      assert Mirrored(s.entries, s.log, k, cfg.ttl, s.now);
    }
  }

  /** Time, new requests, eviction and freezing do not touch the log. */
  lemma InvQuiet(cfg: Config, s: State, s': State)
    requires Inv(cfg, s) && s'.log == s.log && s'.now >= s.now
    requires s'.threads == s.threads
             || (exists th :: s'.threads == s.threads + [th] && !PastEnsure(th) && !th.pc.Settling?)
    requires s'.entries == s.entries || s'.entries == Evicted(s.entries, cfg.ttl, s.now)
    ensures Inv(cfg, s')
  {
    forall k
      ensures Mirrored(s'.entries, s'.log, k, cfg.ttl, s'.now) && Flying(s'.threads, s'.log, k)
    {
      assert Mirrored(s.entries, s.log, k, cfg.ttl, s.now) && Flying(s.threads, s.log, k);
    }
    forall t | 0 <= t < |s'.threads|
      ensures Entitled(s'.log, t, s'.threads[t])
    {
      if t < |s.threads| {
        assert Entitled(s.log, t, s.threads[t]);
      }
    }
  }

  lemma InvRecord(cfg: Config, s: State, key: Key, what: What)
    requires Inv(cfg, s) && (what.Listed? || what.Removed? || what.Froze?)
    ensures Inv(cfg, Record(s, key, what))
  {
    var s' := Record(s, key, what);
    ClockedRecord(s, key, what);
    MirrorsRecord(cfg, s, key, what);
    BackedRecord(s, key, what);
    ForwardsRecord(s, key, what);
    forall k
      ensures Flying(s'.threads, s'.log, k)
    {
      assert Flying(s.threads, s.log, k);
      LastWriteAppend(s.log, Event(s.now, key, what), k);
    }
    forall t | 0 <= t < |s'.threads|
      ensures Entitled(s'.log, t, s'.threads[t])
    {
      assert Entitled(s.log, t, s.threads[t]);
      ReasonsLast(s.log, Event(s.now, key, what), t, s.threads[t].key);
    }
  }

  lemma SameLog(cfg: Config, s: State, s': State)
    requires Inv(cfg, s) && s' == s.(frozen := s'.frozen)
    ensures Inv(cfg, s')
  {
    SameHistory(cfg, s, s');
    assert Flights(s') && AllEntitled(s');
  }

  /** Both invariants together. */
  ghost predicate Sound(cfg: Config, s: State) {
    Accounted(cfg, s) && Inv(cfg, s)
  }

  lemma SoundStep(cfg: Config, s: State, a: Action, s': State)
    requires Sound(cfg, s) && Next(cfg, s, a) == Some(s')
    ensures Sound(cfg, s')
  {
    AccountedStep(cfg, s, a, s');
    match a
    case Move(t, c) =>
      StepCaused(cfg, s, t, c);
      InvApply(cfg, s, t, Step(cfg, s, t, c).value);
    case Resync(key) => InvRecord(cfg, s, key, Listed);
    case AdminRemove(key) => InvRecord(cfg, s, key, Removed(None));
    case SetFrozen(key, on) =>
      InvRecord(cfg, s, key, Froze(on));
      SameLog(cfg, Record(s, key, Froze(on)), s');
    case Request(kind, key) =>
      var th := Thread(kind, key, FirstPC(cfg, kind));
      assert s'.threads == s.threads + [th];
      InvQuiet(cfg, s, s');
    case _ => InvQuiet(cfg, s, s');
  }

  lemma {:induction false} SoundRun(cfg: Config, s: State, actions: seq<Action>, s': State)
    requires Sound(cfg, s) && Run(cfg, s, actions) == Some(s')
    ensures Sound(cfg, s')
    decreases |actions|
  {
    if actions != [] {
      var s1 := Next(cfg, s, actions[0]).value;
      SoundStep(cfg, s, actions[0], s1);
      SoundRun(cfg, s1, actions[1..], s');
    }
  }

  lemma ReachableIsSound(cfg: Config, s: State)
    requires Reachable(cfg, s)
    ensures Sound(cfg, s)
  {
    var start: int, actions: seq<Action> :| Run(cfg, Initial(start), actions) == Some(s);
    SoundRun(cfg, Initial(start), actions, s);
  }

  // ---------------------------------------------------------------- theorems

  /** In every interleaving, a Pending entry has a thread between its SetPending
      and its Register or Remove for that key. */
  lemma PendingHasCreator(cfg: Config, s: State, k: Key)
    requires Reachable(cfg, s) && k in s.entries && s.entries[k].state == Pending
    ensures exists t :: 0 <= t < |s.threads| && s.threads[t].key == k && InFlight(s.threads[t])
  {
    ReachableIsSound(cfg, s);
    assert Mirrored(s.entries, s.log, k, cfg.ttl, s.now) && Flying(s.threads, s.log, k);
  }

  /** A thread that is about to call SendCheckResult has the justification already. */
  lemma SenderIsJustified(cfg: Config, s: State, t: nat)
    requires Reachable(cfg, s) && t < |s.threads| && s.threads[t].pc.Send?
    ensures exists j :: 0 <= j < |s.log| &&
                        (Evidence(s.log[j], s.threads[t].key) || Failure(s.log[j], t, s.threads[t].key))
  {
    ReachableIsSound(cfg, s);
    assert WellPlaced(cfg, s.threads[t]) && Entitled(s.log, t, s.threads[t]);
  }

  /** Over every run, each SendCheckResult is preceded by evidence that its
      service exists, or by the same thread's own failed create or slot timeout. */
  lemma EveryForwardIsJustified(cfg: Config, s: State, i: nat)
    requires Reachable(cfg, s) && i < |s.log| && s.log[i].what.Forwarded?
    ensures exists j :: 0 <= j < i &&
                        (Evidence(s.log[j], s.log[i].key) || Failure(s.log[j], s.log[i].what.t, s.log[i].key))
  {
    ReachableIsSound(cfg, s);
    var before, t, k := s.log[..i], s.log[i].what.t, s.log[i].key;
    assert Justified(before, t, k);
    if Known(before, k) {
      var j :| 0 <= j < |before| && Evidence(before[j], k);
      assert Evidence(s.log[j], k);
    } else {
      var j :| 0 <= j < |before| && Failure(before[j], t, k);
      assert Failure(s.log[j], t, k);
    }
  }
}
