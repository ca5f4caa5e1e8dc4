/** Exactly when the retry schedule holds for every run: it depends on what the
    platform makes of an overflow and, without any delay, of NaN. */
module RetryScheduleLimits {
  import opened Common
  import opened RetryQueue
  import opened RetryRuns
  import opened RetrySchedule

  // ---------------------------------------------------------------- one failing retry

  predicate AllClosed(passes: seq<Pass>) {
    forall p :: 0 <= p < |passes| ==> passes[p].stage == Closed
  }

  /** One item, and nothing going on. */
  predicate Idle(s: State, x: Item) {
    s.items == [x] && AllClosed(s.passes)
  }

  /** One item, which the last pass, otherwise the only open one, is sending. */
  predicate Sending1(s: State, x: Item, sent: Item, fate: Fate) {
    var n := |s.passes| - 1;
    n >= 0 && s.items == [x] && AllClosed(s.passes[..n]) && s.passes[n] == Pass(true, [Job(sent, fate)], {}, Sending)
  }

  /** What the sends of a refused item leave alone. */
  predicate SameFates(s: State, s': State) {
    s'.accepted == s.accepted && s'.removed == s.removed
  }

  /** The processor takes the item at the instant it is due, or now. */
  lemma TakeWhenDue(cfg: Config, actions: seq<Action>, s: State, x: Item)
    returns (actions': seq<Action>, s': State)
    requires cfg.maxSize >= 1 && Reaches(cfg, 0, actions, s) && Idle(s, x)
    ensures Reaches(cfg, 0, actions', s') && Sending1(s', x, x, Todo) && s'.now == Max(s.now, x.nextRetry)
    ensures SameFates(s, s')
  {
    var tick := Tick(Max(0, x.nextRetry - s.now));
    var s1 := s.(now := Max(s.now, x.nextRetry));
    Extend(cfg, actions, s, tick, s1);
    assert RetryQueue.Ready([x], s1.now) == [x] by {
      assert [x][1..] == [] && RetryQueue.Ready([], s1.now) == [];
    }
    assert Jobs([x]) == [Job(x, Todo)];
    s' := s1.(passes := s1.passes + [Pass(true, Jobs([x]), {}, Sending)]);
    Extend(cfg, actions + [tick], s1, BeginAuto, s');
    actions' := actions + [tick] + [BeginAuto];
    assert s'.passes[..|s'.passes| - 1] == s.passes;
  }

  /** One event of the only open job. */
  lemma Advance(cfg: Config, actions: seq<Action>, s: State, x: Item, sent: Item, fate: Fate, event: Event,
                x': Item, fate': Fate)
    returns (actions': seq<Action>, s': State)
    requires cfg.maxSize >= 1 && Reaches(cfg, 0, actions, s) && Sending1(s, x, sent, fate)
    requires (fate, event, fate') in {(Todo, Sent(false), Refused), (Refused, Delay, Delayed),
                                      (Delayed, CountFail, Lost)}
    requires x' == if event.Delay? then Delayed1(cfg, x, s.now) else x
    requires sent.id == x.id
    ensures Reaches(cfg, 0, actions', s') && Sending1(s', x', sent, fate') && s'.now == s.now
    ensures SameFates(s, s')
  {
    var n := |s.passes| - 1;
    var a := Progress(n, 0, event);
    s' := Next(cfg, s, a).value;
    assert s.passes[n].jobs[0 := Job(sent, fate')] == [Job(sent, fate')];
    assert s'.passes[..n] == s.passes[..n];
    if event.Delay? {
      assert [x'] + [x][1..] == [x'];
    }
    Extend(cfg, actions, s, a, s');
    actions' := actions + [a];
  }

  /** The pass ends; nothing was accepted, so nothing is removed. */
  lemma EndPass(cfg: Config, actions: seq<Action>, s: State, x: Item, sent: Item)
    returns (actions': seq<Action>, s': State)
    requires cfg.maxSize >= 1 && Reaches(cfg, 0, actions, s) && Sending1(s, x, sent, Lost)
    ensures Reaches(cfg, 0, actions', s') && Idle(s', x) && s'.now == s.now
    ensures SameFates(s, s') && (cfg.persistent ==> s'.disk == Some([x]))
  {
    var n := |s.passes| - 1;
    s' := RemoveAccepted(cfg, s, n);
    assert Without([x], {}) == [x] by {
      assert [x][1..] == [] && Without([], {}) == [];
    }
    Extend(cfg, actions, s, Finish(n), s');
    actions' := actions + [Finish(n)];
    assert forall p :: 0 <= p < n ==> s'.passes[p] == s.passes[..n][p];
    if cfg.persistent {
      var s1 := s';
      s' := Next(cfg, s1, Persist(n)).value;
      Extend(cfg, actions', s1, Persist(n), s');
      actions' := actions' + [Persist(n)];
    }
  }

  function Delayed1(cfg: Config, x: Item, now: int): Item {
    x.(attempts := x.attempts + 1, nextRetry := now + Backoff(cfg, x.attempts + 1))
  }

  /** An item that is retried when it is due, and fails. */
  lemma FailOnce(cfg: Config, actions: seq<Action>, s: State, x: Item) returns (actions': seq<Action>, s': State)
    requires cfg.maxSize >= 1 && Reaches(cfg, 0, actions, s) && Idle(s, x)
    ensures var due := Max(s.now, x.nextRetry); Idle(s', Delayed1(cfg, x, due)) && s'.now == due
    ensures Reaches(cfg, 0, actions', s') && SameFates(s, s') && (cfg.persistent ==> s'.disk == Some(s'.items))
  {
    var x' := Delayed1(cfg, x, Max(s.now, x.nextRetry));
    actions', s' := TakeWhenDue(cfg, actions, s, x);
    actions', s' := Advance(cfg, actions', s', x, x, Todo, Sent(false), x, Refused);
    actions', s' := Advance(cfg, actions', s', x, x, Refused, Delay, x', Delayed);
    actions', s' := Advance(cfg, actions', s', x', x, Delayed, CountFail, x', Lost);
    actions', s' := EndPass(cfg, actions', s', x', x);
  }

  /** The first item is enqueued. */
  lemma PushOne(cfg: Config) returns (actions: seq<Action>, s: State, x: Item)
    requires cfg.maxSize >= 1
    ensures Reaches(cfg, 0, actions, s) && Idle(s, x) && s.now == 0 && x == Item([], NO_ITEM.load, 0, 0, cfg.base, 0)
    ensures s.accepted == s.removed == {}
  {
    var s0, push := Initial(0), Push([], NO_ITEM.load, 0);
    assert Run(cfg, s0, []) == Some(s0) && FreshIDs(cfg, s0, []);
    s := Next(cfg, s0, push).value;
    x := Item([], NO_ITEM.load, 0, 0, cfg.base, 0);
    Extend(cfg, [], s0, push, s);
    actions := [] + [push];
  }

  // ---------------------------------------------------------------- many failing retries

  /** While the backoff is in range, an item can be retried on the very schedule. */
  lemma {:induction false} FailTimes(cfg: Config, n: nat) returns (actions: seq<Action>, s: State, x: Item)
    requires cfg.maxSize >= 1 && 0 <= cfg.base <= cfg.max && !Overflows(cfg, n) && !IsNaN(cfg, n)
    ensures Reaches(cfg, 0, actions, s) && Idle(s, x) && s.now <= x.nextRetry
    ensures x.attempts == n && x.enqueuedAt == 0 && x.nextRetry == Spacing(cfg, n)
    decreases n
  {
    if n == 0 {
      actions, s, x := PushOne(cfg);
    } else {
      FitsBelow(cfg, n);
      var y;
      actions, s, y := FailTimes(cfg, n - 1);
      actions, s := FailOnce(cfg, actions, s, y);
      x := Delayed1(cfg, y, y.nextRetry);
      InRangeBackoff(cfg, n);
    }
  }

  lemma FitsBelow(cfg: Config, n: nat)
    requires n > 0 && cfg.base >= 0 && !Overflows(cfg, n)
    ensures !Overflows(cfg, n - 1)
  {
    assert cfg.base * Pow2(n) == 2 * (cfg.base * Pow2(n - 1));
    assert cfg.base * Pow2(n - 1) >= 0;
  }

  lemma InRangeBackoff(cfg: Config, n: nat)
    requires 0 <= cfg.base <= cfg.max && !Overflows(cfg, n) && !IsNaN(cfg, n)
    ensures Backoff(cfg, n) == RetryQueue.Delay(cfg, n) >= 0
  {
    assert cfg.base * Pow2(n) >= 0;
  }

  lemma {:induction false} Pow2Grows(n: nat)
    ensures Pow2(n) > n
  {
    if n > 0 {
      Pow2Grows(n - 1);
    }
  }

  lemma FarIsOut(cfg: Config, far: nat)
    requires cfg.base > 0 && far >= DURATION_LIMIT
    ensures Overflows(cfg, far)
  {
    Pow2Grows(far);
    TimesAtLeast(cfg.base, Pow2(far));
  }

  lemma TimesAtLeast(b: nat, p: nat)
    requires b > 0
    ensures b * p >= p
  {
    assert b * p == p + (b - 1) * p;
  }

  ghost predicate AlwaysSpaced(cfg: Config)
    requires cfg.maxSize >= 1
  {
    forall start: int, actions: seq<Action>, s: State, x: Item ::
      Reaches(cfg, start, actions, s) && x in s.items ==> !Early(cfg, x)
  }

  /** Any number of failures can be reached. */
  lemma {:induction false} FailUntil(cfg: Config, n: nat) returns (actions: seq<Action>, s: State, x: Item)
    requires cfg.maxSize >= 1
    ensures Reaches(cfg, 0, actions, s) && Idle(s, x) && x.attempts == n
    decreases n
  {
    if n == 0 {
      actions, s, x := PushOne(cfg);
    } else {
      var y;
      actions, s, y := FailUntil(cfg, n - 1);
      actions, s := FailOnce(cfg, actions, s, y);
      x := Delayed1(cfg, y, Max(s.now, y.nextRetry));
    }
  }

  predicate Early(cfg: Config, x: Item) {
    x.nextRetry < x.enqueuedAt + Spacing(cfg, x.attempts)
  }

  /** How much later than its schedule an item can be retried next. */
  function Slack(cfg: Config, s: State, x: Item): int {
    Max(s.now, x.nextRetry) - x.enqueuedAt - Spacing(cfg, x.attempts)
  }

  /** Every overflow uses up slack, until the item is early. */
  lemma {:induction false} WearOut(cfg: Config, actions: seq<Action>, s: State, x: Item)
    returns (actions': seq<Action>, s': State, x': Item)
    requires cfg.maxSize >= 1 && cfg.Typed() && 0 < cfg.base && 0 < cfg.max && cfg.overflow < cfg.max
    requires Reaches(cfg, 0, actions, s) && Idle(s, x) && Overflows(cfg, x.attempts + 1)
    ensures Reaches(cfg, 0, actions', s') && x' in s'.items && Early(cfg, x')
    decreases Max(0, Slack(cfg, s, x))
  {
    actions', s' := FailOnce(cfg, actions, s, x);
    x' := Delayed1(cfg, x, Max(s.now, x.nextRetry));
    assert Spacing(cfg, x.attempts + 1) == Spacing(cfg, x.attempts) + cfg.max;
    if !Early(cfg, x') {
      assert cfg.base * Pow2(x.attempts + 2) == 2 * (cfg.base * Pow2(x.attempts + 1));
      actions', s', x' := WearOut(cfg, actions', s', x');
    }
  }

  /** A run that breaks the schedule, if an overflow converts to less than the cap. */
  lemma OverflowBreaksSchedule(cfg: Config) returns (actions: seq<Action>, s: State, x: Item)
    requires cfg.maxSize >= 1 && cfg.Typed() && 0 < cfg.base && 0 < cfg.max && cfg.overflow < cfg.max
    ensures Reaches(cfg, 0, actions, s) && x in s.items && Early(cfg, x)
  {
    var far: nat :| far >= DURATION_LIMIT;
    FarIsOut(cfg, far);
    actions, s, x := FailUntil(cfg, far - 1);
    actions, s, x := WearOut(cfg, actions, s, x);
  }

  /** Without any delay, the refusal number 1024 makes the product NaN. */
  lemma NaNBreaksSchedule(cfg: Config) returns (actions: seq<Action>, s: State, x: Item)
    requires cfg.maxSize >= 1 && cfg.Typed() && cfg.base == 0 <= cfg.max && cfg.nan < 0
    ensures Reaches(cfg, 0, actions, s) && x in s.items && x.attempts == INFINITE_FROM
    ensures Early(cfg, x)
  {
    var n: nat :| n == INFINITE_FROM;
    assert cfg.base * Pow2(n - 1) == 0 && cfg.base * Pow2(n) == 0;
    var y;
    actions, s, y := FailTimes(cfg, n - 1);
    actions, s := FailOnce(cfg, actions, s, y);
    x := Delayed1(cfg, y, y.nextRetry);
    assert Spacing(cfg, n) == Spacing(cfg, n - 1) + RetryQueue.Delay(cfg, n);
  }

  /** What the platform must make of the conversions that the settings can meet. */
  predicate Safe(cfg: Config) {
    cfg.base < 0 || (if cfg.base == 0 then cfg.nan >= 0 else cfg.overflow >= cfg.max)
  }

  lemma SafeSuffices(cfg: Config, attempts: nat)
    requires Safe(cfg)
    ensures Sufficient(cfg, attempts)
  {
    if cfg.base <= 0 {
      assert cfg.base * Pow2(attempts) <= 0;
    }
  }

  /** Every item of every run keeps to the schedule if and only if the base is
      negative, or it is zero and NaN converts to no less, or an overflow converts
      to at least the cap. */
  lemma AlwaysSpacedIff(cfg: Config)
    requires cfg.maxSize >= 1 && cfg.Typed() && (cfg.base <= cfg.max || cfg.max > 0 || cfg.base < 0)
    ensures AlwaysSpaced(cfg)
            <==> cfg.base < 0 || (if cfg.base == 0 then cfg.nan >= 0 else cfg.overflow >= cfg.max)
  {
    if Safe(cfg) {
      forall start: int, actions: seq<Action>, s: State, x: Item | Reaches(cfg, start, actions, s) && x in s.items
        ensures !Early(cfg, x)
      {
        SafeSuffices(cfg, x.attempts);
        ItemsAreSpaced(cfg, start, actions, s, x);
      }
    } else if cfg.base == 0 {
      var actions, s, x := NaNBreaksSchedule(cfg);
      assert Reaches(cfg, 0, actions, s) && x in s.items;
    } else {
      var actions, s, x := OverflowBreaksSchedule(cfg);
      assert Reaches(cfg, 0, actions, s) && x in s.items;
    }
  }
}
