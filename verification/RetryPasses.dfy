/** What a pass without refusals does: a flush sends and removes everything, the
    processor everything that is due. */
module RetryPasses {
  import opened Common
  import opened RetryQueue
  import opened RetryRuns

  function IDs(items: seq<Item>): set<Text> {
    set x | x in items :: x.id
  }

  /** The last pass sends these items; the first m were accepted and counted. */
  predicate Accepting(s: State, automatic: bool, items: seq<Item>, m: nat) {
    var n := |s.passes| - 1;
    && n >= 0 && s.passes[n] == Pass(automatic, s.passes[n].jobs, IDs(items[..Min(m, |items|)]), Sending)
    && |s.passes[n].jobs| == |items|
    && forall k :: 0 <= k < |items| ==> s.passes[n].jobs[k] == Job(items[k], if k < m then Won else Todo)
  }

  /** No send of the run is refused. */
  predicate NoRefusal(actions: seq<Action>) {
    forall i :: 0 <= i < |actions| ==> !(actions[i].Progress? && actions[i].event == Sent(false))
  }

  lemma TakeNext(items: seq<Item>, m: nat)
    requires m < |items|
    ensures IDs(items[..m + 1]) == IDs(items[..m]) + {items[m].id}
  {
    assert items[..m + 1] == items[..m] + [items[m]];
  }

  lemma AcceptOne(cfg: Config, s0: State, actions: seq<Action>, s: State, automatic: bool, items: seq<Item>, m: nat)
    returns (actions': seq<Action>, s': State)
    requires cfg.maxSize >= 1 && Run(cfg, s0, actions) == Some(s) && NoRefusal(actions)
    requires Accepting(s, automatic, items, m) && m < |items|
    ensures Run(cfg, s0, actions') == Some(s') && NoRefusal(actions') && Accepting(s', automatic, items, m + 1)
    ensures s'.items == s.items && s'.totalRetried == s.totalRetried + 1 && s'.now == s.now
    ensures s'.accepted == s.accepted + {items[m].ticket}
  {
    var n := |s.passes| - 1;
    var a, b := Progress(n, m, Sent(true)), Progress(n, m, CountOk);
    var s1 := Next(cfg, s, a).value;
    RunOne(cfg, s0, actions, s, a, s1);
    s' := Next(cfg, s1, b).value;
    RunOne(cfg, s0, actions + [a], s1, b, s');
    actions' := actions + [a] + [b];
    TakeNext(items, m);
  }

  lemma {:induction false} AcceptMany(cfg: Config, s0: State, actions: seq<Action>, s: State, automatic: bool,
                                      items: seq<Item>, m: nat)
    returns (actions': seq<Action>, s': State)
    requires cfg.maxSize >= 1 && Run(cfg, s0, actions) == Some(s) && NoRefusal(actions)
    requires Accepting(s, automatic, items, 0) && m <= |items|
    ensures Run(cfg, s0, actions') == Some(s') && NoRefusal(actions') && Accepting(s', automatic, items, m)
    ensures s'.items == s.items && s'.totalRetried == s.totalRetried + m && s'.now == s.now
    decreases m
  {
    if m == 0 {
      actions', s' := actions, s;
    } else {
      var s1;
      actions', s1 := AcceptMany(cfg, s0, actions, s, automatic, items, m - 1);
      actions', s' := AcceptOne(cfg, s0, actions', s1, automatic, items, m - 1);
    }
  }

  /** A pass that has just taken its snapshot, accepted throughout. */
  lemma PassAccepted(cfg: Config, s0: State, begin: Action, s: State, automatic: bool, items: seq<Item>)
    returns (actions: seq<Action>, s': State)
    requires cfg.maxSize >= 1 && Next(cfg, s0, begin) == Some(s) && !begin.Progress?
    requires s == s0.(passes := s0.passes + [Pass(automatic, Jobs(items), {}, Sending)])
    ensures Run(cfg, s0, actions) == Some(s') && NoRefusal(actions)
    ensures s'.items == Without(s0.items, IDs(items)) && s'.totalRetried == s0.totalRetried + |items|
  {
    assert Run(cfg, s0, []) == Some(s0);
    RunOne(cfg, s0, [], s0, begin, s);
    assert IDs(items[..0]) == {};
    actions, s' := AcceptMany(cfg, s0, [] + [begin], s, automatic, items, |items|);
    assert items[..|items|] == items;
    var n := |s'.passes| - 1;
    var s1 := RemoveAccepted(cfg, s', n);
    RunOne(cfg, s0, actions, s', Finish(n), s1);
    actions, s' := actions + [Finish(n)], s1;
  }

  /** From every state, a flush whose sends are all accepted leaves nothing queued,
      and counts every item. */
  lemma FlushSendsEverything(cfg: Config, s: State) returns (actions: seq<Action>, s': State)
    requires cfg.maxSize >= 1
    ensures Run(cfg, s, actions) == Some(s') && NoRefusal(actions)
    ensures s'.items == [] && s'.totalRetried == s.totalRetried + |s.items|
  {
    actions, s' := PassAccepted(cfg, s, BeginFlush, Next(cfg, s, BeginFlush).value, false, s.items);
    if s'.items != [] {
      WithoutIff(s.items, IDs(s.items), s'.items[0]);
    }
  }

  /** From every state with distinct IDs and no pass of the processor under way, such a
      pass leaves exactly the items that are not due yet. */
  lemma ProcessorSendsWhatIsDue(cfg: Config, s: State) returns (actions: seq<Action>, s': State)
    requires cfg.maxSize >= 1 && !AutoRunning(s)
    requires forall x, y :: x in s.items && y in s.items && x.id == y.id ==> x == y
    ensures Run(cfg, s, actions) == Some(s') && NoRefusal(actions)
    ensures forall x :: x in s'.items <==> x in s.items && x.nextRetry > s.now
  {
    var due := RetryQueue.Ready(s.items, s.now);
    assert Run(cfg, s, []) == Some(s);
    if due == [] {
      actions, s' := [], s;
    } else {
      actions, s' := PassAccepted(cfg, s, BeginAuto, Next(cfg, s, BeginAuto).value, true, due);
    }
    forall x
      ensures x in s'.items <==> x in s.items && x.nextRetry > s.now
    {
      ReadyIff(s.items, s.now, x);
      WithoutIff(s.items, IDs(due), x);
      if x in s.items && x.id in IDs(due) {
        var y :| y in due && y.id == x.id;
        ReadyIff(s.items, s.now, y);
      }
    }
  }

  // ---------------------------------------------------------------- counters

  function CountJobs(jobs: seq<Job>, fate: Fate): nat {
    if jobs == [] then 0 else (if jobs[0].fate == fate then 1 else 0) + CountJobs(jobs[1..], fate)
  }

  /** Jobs with that fate over all passes (or the automatic ones only). */
  function CountFates(passes: seq<Pass>, fate: Fate, automatic: bool): nat {
    if passes == [] then 0
    else (if automatic && !passes[0].automatic then 0 else CountJobs(passes[0].jobs, fate))
         + CountFates(passes[1..], fate, automatic)
  }

  lemma {:induction false} CountJobsUpdate(jobs: seq<Job>, j: nat, x: Job, fate: Fate)
    requires j < |jobs|
    ensures CountJobs(jobs[j := x], fate)
            == CountJobs(jobs, fate) - (if jobs[j].fate == fate then 1 else 0) + (if x.fate == fate then 1 else 0)
    decreases |jobs|
  {
    if j == 0 {
      assert jobs[j := x][1..] == jobs[1..];
    } else {
      assert jobs[j := x][1..] == jobs[1..][j - 1 := x];
      CountJobsUpdate(jobs[1..], j - 1, x, fate);
    }
  }

  function Share(pass: Pass, fate: Fate, automatic: bool): nat {
    if automatic && !pass.automatic then 0 else CountJobs(pass.jobs, fate)
  }

  lemma {:induction false} CountFatesUpdate(passes: seq<Pass>, p: nat, x: Pass, fate: Fate, automatic: bool)
    requires p < |passes|
    ensures CountFates(passes[p := x], fate, automatic)
            == CountFates(passes, fate, automatic) - Share(passes[p], fate, automatic) + Share(x, fate, automatic)
    decreases |passes|
  {
    if p == 0 {
      assert passes[p := x][1..] == passes[1..];
    } else {
      assert passes[p := x][1..] == passes[1..][p - 1 := x];
      CountFatesUpdate(passes[1..], p - 1, x, fate, automatic);
    }
  }

  lemma {:induction false} CountFatesAppend(passes: seq<Pass>, x: Pass, fate: Fate, automatic: bool)
    ensures CountFates(passes + [x], fate, automatic) == CountFates(passes, fate, automatic) + Share(x, fate, automatic)
    decreases |passes|
  {
    if passes == [] {
      assert passes + [x] == [x];
    } else {
      assert (passes + [x])[1..] == passes[1..] + [x];
      CountFatesAppend(passes[1..], x, fate, automatic);
    }
  }

  lemma {:induction false} NobodyYet(jobs: seq<Job>, fate: Fate)
    requires fate != Todo && forall j :: 0 <= j < |jobs| ==> jobs[j].fate == Todo
    ensures CountJobs(jobs, fate) == 0
  {
    if jobs != [] {
      NobodyYet(jobs[1..], fate);
    }
  }

  /** Only the processor delays an item that was refused. */
  predicate DelaysAlone(pass: Pass) {
    pass.automatic || forall j :: 0 <= j < |pass.jobs| ==> pass.jobs[j].fate != Refused && pass.jobs[j].fate != Delayed
  }

  ghost predicate Tallied(s: State) {
    && s.totalRetried == CountFates(s.passes, Won, false) && s.totalFailed == CountFates(s.passes, Lost, true)
    && forall p :: 0 <= p < |s.passes| ==> DelaysAlone(s.passes[p])
  }

  lemma JobShares(pass: Pass, j: nat, fate: Fate, pass': Pass)
    requires j < |pass.jobs| && pass'.automatic == pass.automatic
    requires pass'.jobs == pass.jobs[j := pass.jobs[j].(fate := fate)]
    ensures Share(pass', Won, false)
            == Share(pass, Won, false) - (if pass.jobs[j].fate == Won then 1 else 0) + (if fate == Won then 1 else 0)
    ensures Share(pass', Lost, true)
            == if !pass.automatic then Share(pass, Lost, true)
               else Share(pass, Lost, true) - (if pass.jobs[j].fate == Lost then 1 else 0) + (if fate == Lost then 1
                     else 0)
  {
    CountJobsUpdate(pass.jobs, j, pass'.jobs[j], Won);
    CountJobsUpdate(pass.jobs, j, pass'.jobs[j], Lost);
  }

  lemma TalliedJob(cfg: Config, s: State, p: nat, j: nat, event: Event, s': State)
    requires Tallied(s) && IsJob(s, p, j) && JobNext(cfg, s, p, j, event) == Some(s')
    ensures Tallied(s')
  {
    var old', new' := s.passes[p], s'.passes[p];
    assert DelaysAlone(old');
    assert s'.passes == s.passes[p := new'];
    JobShares(old', j, new'.jobs[j].fate, new');
    CountFatesUpdate(s.passes, p, new', Won, false);
    CountFatesUpdate(s.passes, p, new', Lost, true);
    assert DelaysAlone(new');
  }

  lemma TalliedPass(s: State, p: nat, x: Pass, s': State)
    requires Tallied(s) && p <= |s.passes| && s'.totalRetried == s.totalRetried && s'.totalFailed == s.totalFailed
    requires if p < |s.passes|
             then s'.passes == s.passes[p := x] && x.jobs == s.passes[p].jobs && x.automatic == s.passes[p].automatic
             else s'.passes == s.passes + [x] && forall j :: 0 <= j < |x.jobs| ==> x.jobs[j].fate == Todo
    ensures Tallied(s')
  {
    if p < |s.passes| {
      assert DelaysAlone(s.passes[p]);
      CountFatesUpdate(s.passes, p, x, Won, false);
      CountFatesUpdate(s.passes, p, x, Lost, true);
    } else {
      NobodyYet(x.jobs, Won);
      NobodyYet(x.jobs, Lost);
      CountFatesAppend(s.passes, x, Won, false);
      CountFatesAppend(s.passes, x, Lost, true);
    }
  }

  lemma TalliedStep(cfg: Config, s: State, a: Action, s': State)
    requires cfg.maxSize >= 1 && Tallied(s) && Next(cfg, s, a) == Some(s')
    ensures Tallied(s')
  {
    match a
    case Progress(p, j, event) => TalliedJob(cfg, s, p, j, event, s');
    case BeginFlush => TalliedPass(s, |s.passes|, s'.passes[|s.passes|], s');
    case BeginAuto =>
      if s'.passes != s.passes {
        TalliedPass(s, |s.passes|, s'.passes[|s.passes|], s');
      }
    case Finish(p) => TalliedPass(s, p, s'.passes[p], s');
    case Persist(p) => TalliedPass(s, p, s'.passes[p], s');
    case _ =>
  }

  lemma {:induction false} TalliedRun(cfg: Config, s: State, actions: seq<Action>, s': State)
    requires cfg.maxSize >= 1 && Tallied(s) && Run(cfg, s, actions) == Some(s')
    ensures Tallied(s')
    decreases |actions|
  {
    if actions != [] {
      var s1 := Next(cfg, s, actions[0]).value;
      TalliedStep(cfg, s, actions[0], s1);
      TalliedRun(cfg, s1, actions[1..], s');
    }
  }

  /** In every run, totalRetried is the number of accepted sends that were counted, and
      totalFailed the number of refused ones of the processor; refusals of a flush
      are not counted. */
  lemma CountersAreExact(cfg: Config, start: int, actions: seq<Action>, s: State)
    requires cfg.maxSize >= 1 && Run(cfg, Initial(start), actions) == Some(s)
    ensures s.totalRetried == CountFates(s.passes, Won, false)
    ensures s.totalFailed == CountFates(s.passes, Lost, true)
  {
    TalliedRun(cfg, Initial(start), actions, s);
  }
}
