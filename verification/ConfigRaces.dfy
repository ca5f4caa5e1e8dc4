/** Concurrent updates of the configuration store (configstore/store.go). Update
    replaces the configuration under the lock, but then releases it: Save copies
    the configuration under the lock again and writes the file without it. */
module ConfigRaces {
  import opened Common

  /** An update about to replace the configuration, about to copy it, about to
      write the copy, or done. Configurations are numbered in the order in which
      they became current. */
  datatype Update = Replacing | Copying | Writing(copy: nat) | Finished

  datatype State = State(current: nat, file: nat, updates: seq<Update>)

  datatype Action = Begin | Move(u: nat)

  function Step(s: State, u: nat): State
    requires u < |s.updates|
  {
    match s.updates[u]
    case Replacing => s.(current := s.current + 1, updates := s.updates[u := Copying])
    case Copying => s.(updates := s.updates[u := Writing(s.current)])
    case Writing(copy) => s.(file := copy, updates := s.updates[u := Finished])
    case Finished => s
  }

  function Busy(updates: seq<Update>): nat {
    if updates == [] then 0 else (if updates[0].Finished? then 0 else 1) + Busy(updates[1..])
  }

  /** At most `limit` updates are under way at a time. */
  function Next(limit: nat, s: State, a: Action): Option<State> {
    match a
    case Begin => if Busy(s.updates) < limit then Some(s.(updates := s.updates + [Replacing])) else None
    case Move(u) => if u < |s.updates| then Some(Step(s, u)) else None
  }

  function Run(limit: nat, s: State, actions: seq<Action>): Option<State>
    decreases |actions|
  {
    if actions == [] then Some(s)
    else
      match Next(limit, s, actions[0])
      case None => None
      case Some(s1) => Run(limit, s1, actions[1..])
  }

  const INITIAL: State := State(0, 0, [])

  // ---------------------------------------------------------------- one at a time

  lemma {:induction false} BusyUpdate(updates: seq<Update>, u: nat, x: Update)
    requires u < |updates|
    ensures Busy(updates[u := x])
            == Busy(updates) - (if updates[u].Finished? then 0 else 1) + (if x.Finished? then 0 else 1)
    decreases |updates|
  {
    if u == 0 {
      assert updates[u := x][1..] == updates[1..];
    } else {
      assert updates[u := x][1..] == updates[1..][u - 1 := x];
      BusyUpdate(updates[1..], u - 1, x);
    }
  }

  lemma {:induction false} BusyAppend(updates: seq<Update>, x: Update)
    ensures Busy(updates + [x]) == Busy(updates) + (if x.Finished? then 0 else 1)
    decreases |updates|
  {
    if updates == [] {
      assert updates + [x] == [x];
    } else {
      assert (updates + [x])[1..] == updates[1..] + [x];
      BusyAppend(updates[1..], x);
    }
  }

  lemma {:induction false} BusyTwo(updates: seq<Update>, u: nat, v: nat)
    requires u < |updates| && v < |updates| && u != v && !updates[u].Finished?
    ensures Busy(updates) >= (if updates[v].Finished? then 1 else 2)
    decreases |updates|
  {
    BusyUpdate(updates, u, Finished);
    BusyUpdate(updates[u := Finished], v, Finished);
  }

  /** The file is up to date, or the one update under way will bring it so. */
  ghost predicate Ordered(s: State) {
    && Busy(s.updates) <= 1
    && (forall u :: 0 <= u < |s.updates| && s.updates[u].Writing? ==> s.updates[u].copy == s.current)
    && (s.file == s.current || exists u :: 0 <= u < |s.updates| && (s.updates[u].Copying? || s.updates[u].Writing?))
  }

  lemma OrderedBegin(s: State)
    requires Ordered(s) && Busy(s.updates) == 0
    ensures Ordered(s.(updates := s.updates + [Replacing]))
  {
    BusyAppend(s.updates, Replacing);
    assert forall u :: 0 <= u < |s.updates| ==> (s.updates + [Replacing])[u] == s.updates[u];
  }

  lemma OrderedMove(s: State, u: nat)
    requires Ordered(s) && u < |s.updates|
    ensures Ordered(Step(s, u))
  {
    var s' := Step(s, u);
    if !s.updates[u].Finished? {
      BusyUpdate(s.updates, u, s'.updates[u]);
      forall v | 0 <= v < |s.updates| && v != u
        ensures s.updates[v].Finished?
      {
        BusyTwo(s.updates, u, v);
      }
      assert s.updates[u].Replacing? || s.updates[u].Copying? ==> s'.updates[u].Copying? || s'.updates[u].Writing?;
    }
  }

  lemma {:induction false} OrderedRun(s: State, actions: seq<Action>, s': State)
    requires Ordered(s) && Run(1, s, actions) == Some(s')
    ensures Ordered(s')
    decreases |actions|
  {
    if actions != [] {
      var s1 := Next(1, s, actions[0]).value;
      match actions[0] {
        case Begin => OrderedBegin(s);
        case Move(u) => OrderedMove(s, u);
      }
      OrderedRun(s1, actions[1..], s');
    }
  }

  predicate Quiet(s: State) {
    forall u :: 0 <= u < |s.updates| ==> s.updates[u].Finished?
  }

  /** Whenever no update is under way, the file holds the current configuration. */
  ghost predicate Follows(limit: nat) {
    forall actions: seq<Action>, s: State :: Run(limit, INITIAL, actions) == Some(s) && Quiet(s) ==> s.file == s.current
  }

  lemma {:induction false} RunOn(limit: nat, s: State, actions: seq<Action>, s1: State, a: Action, s2: State)
    requires Run(limit, s, actions) == Some(s1) && Next(limit, s1, a) == Some(s2)
    ensures Run(limit, s, actions + [a]) == Some(s2)
    decreases |actions|
  {
    if actions == [] {
      assert actions + [a] == [a] && [a][1..] == [];
    } else {
      assert (actions + [a])[0] == actions[0] && (actions + [a])[1..] == actions[1..] + [a];
      RunOn(limit, Next(limit, s, actions[0]).value, actions[1..], s1, a, s2);
    }
  }

  /** One of two updates takes its next step. */
  lemma Take(limit: nat, actions: seq<Action>, s: State, u: nat, x: Update, y: Update)
    returns (actions': seq<Action>, s': State)
    requires Run(limit, INITIAL, actions) == Some(s) && |s.updates| == 2 && u < 2
    requires [x, y] == Step(s, u).updates
    ensures Run(limit, INITIAL, actions') == Some(s') && s' == Step(s, u)
  {
    s' := Step(s, u);
    RunOn(limit, INITIAL, actions, s, Move(u), s');
    actions' := actions + [Move(u)];
  }

  lemma TwoBegin(limit: nat) returns (actions: seq<Action>, s: State)
    requires limit >= 2
    ensures Run(limit, INITIAL, actions) == Some(s) && s == State(0, 0, [Replacing, Replacing])
  {
    var s1 := State(0, 0, [Replacing]);
    s := State(0, 0, [Replacing, Replacing]);
    assert Run(limit, INITIAL, []) == Some(INITIAL);
    assert [] + [Replacing] == [Replacing] && [Replacing] + [Replacing] == [Replacing, Replacing];
    BusyAppend([], Replacing);
    RunOn(limit, INITIAL, [], INITIAL, Begin, s1);
    RunOn(limit, INITIAL, [] + [Begin], s1, Begin, s);
    actions := [] + [Begin] + [Begin];
  }

  /** Two updates: the first one's copy is written last. */
  lemma OlderCopyWins(limit: nat) returns (actions: seq<Action>, s: State)
    requires limit >= 2
    ensures Run(limit, INITIAL, actions) == Some(s) && Quiet(s) && s.file == 1 && s.current == 2
  {
    actions, s := TwoBegin(limit);
    actions, s := Take(limit, actions, s, 0, Copying, Replacing);
    actions, s := Take(limit, actions, s, 0, Writing(1), Replacing);
    actions, s := Take(limit, actions, s, 1, Writing(1), Copying);
    actions, s := Take(limit, actions, s, 1, Writing(1), Writing(2));
    actions, s := Take(limit, actions, s, 1, Writing(1), Finished);
    actions, s := Take(limit, actions, s, 0, Finished, Finished);
  }

  /** The file follows memory in all interleavings if and only if the callers never
      have two updates under way at a time. */
  lemma FollowsIff(limit: nat)
    ensures Follows(limit) <==> limit <= 1
  {
    if limit >= 2 {
      var actions, s := OlderCopyWins(limit);
      assert Run(limit, INITIAL, actions) == Some(s);
    } else {
      forall actions: seq<Action>, s: State | Run(limit, INITIAL, actions) == Some(s) && Quiet(s)
        ensures s.file == s.current
      {
        FewerIsEnough(limit, INITIAL, actions, s);
        OrderedRun(INITIAL, actions, s);
      }
    }
  }

  lemma {:induction false} FewerIsEnough(limit: nat, s: State, actions: seq<Action>, s': State)
    requires limit <= 1 && Run(limit, s, actions) == Some(s')
    ensures Run(1, s, actions) == Some(s')
    decreases |actions|
  {
    if actions != [] {
      FewerIsEnough(limit, Next(limit, s, actions[0]).value, actions[1..], s');
    }
  }
}
