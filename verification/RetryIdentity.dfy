/** Why the callers must give every item its own ID: removals on success are
    owned in all runs if and only if no two pushed items share an ID. */
module RetryIdentity {
  import opened Common
  import opened RetryQueue
  import opened RetryRuns
  import opened RetryConservation
  import opened RetryOwnership
  import opened RetrySchedule

  /** The IDs that a run enqueues, in order. */
  function PushedIDs(actions: seq<Action>): seq<Text> {
    if actions == [] then [] else (if actions[0].Push? then [actions[0].id] else []) + PushedIDs(actions[1..])
  }

  predicate AllDistinct(ids: seq<Text>) {
    forall i, j :: 0 <= i < j < |ids| ==> ids[i] != ids[j]
  }

  /** A run from a fresh start whose pushes carry `ids`. */
  ghost predicate Carries(cfg: Config, start: int, actions: seq<Action>, ids: seq<Text>, s: State)
    requires cfg.maxSize >= 1
  {
    Run(cfg, Initial(start), actions) == Some(s) && PushedIDs(actions) == ids
  }

  /** However items with these IDs are interleaved with sends, flushes, drains and
      restarts, only items whose own send was accepted are removed on success. */
  ghost predicate OwnsRemovals(cfg: Config, ids: seq<Text>)
    requires cfg.maxSize >= 1
  {
    forall start: int, actions: seq<Action>, s: State ::
      Carries(cfg, start, actions, ids, s) ==> s.removed <= s.accepted
  }

  // ---------------------------------------------------------------- distinct IDs are fresh

  lemma NamesGrow(cfg: Config, s: State, a: Action, s': State)
    requires cfg.maxSize >= 1 && Next(cfg, s, a) == Some(s')
    ensures s'.names.Values <= s.names.Values + (if a.Push? then {a.id} else {})
  {
    if a.Push? {
      assert s'.names == s.names[s.nextTicket := a.id];
    } else {
      assert s'.names == s.names;
    }
  }

  lemma {:induction false} DistinctAreFresh(cfg: Config, s: State, actions: seq<Action>, s': State)
    requires cfg.maxSize >= 1 && Run(cfg, s, actions) == Some(s') && AllDistinct(PushedIDs(actions))
    requires forall k :: 0 <= k < |PushedIDs(actions)| ==> PushedIDs(actions)[k] !in s.names.Values
    ensures FreshIDs(cfg, s, actions)
    decreases |actions|
  {
    if actions != [] {
      var a, rest := actions[0], PushedIDs(actions[1..]);
      var s1 := Next(cfg, s, a).value;
      NamesGrow(cfg, s, a, s1);
      if a.Push? {
        assert PushedIDs(actions)[0] == a.id;
        assert forall k :: 0 <= k < |rest| ==> rest[k] == PushedIDs(actions)[k + 1];
      } else {
        assert PushedIDs(actions) == rest;
      }
      DistinctAreFresh(cfg, s1, actions[1..], s');
    }
  }

  // ---------------------------------------------------------------- building runs

  lemma {:induction false} PushedAppend(actions: seq<Action>, a: Action)
    ensures PushedIDs(actions + [a]) == PushedIDs(actions) + (if a.Push? then [a.id] else [])
    decreases |actions|
  {
    if actions == [] {
      assert actions + [a] == [a] && [a][1..] == [];
    } else {
      assert (actions + [a])[0] == actions[0] && (actions + [a])[1..] == actions[1..] + [a];
      PushedAppend(actions[1..], a);
    }
  }

  lemma Continue(cfg: Config, actions: seq<Action>, ids: seq<Text>, s: State, a: Action, s': State)
    requires cfg.maxSize >= 1 && Carries(cfg, 0, actions, ids, s) && Next(cfg, s, a) == Some(s')
    ensures Carries(cfg, 0, actions + [a], if a.Push? then ids + [a.id] else ids, s')
  {
    RunOne(cfg, Initial(0), actions, s, a, s');
    PushedAppend(actions, a);
  }

  function Last(items: seq<Item>): Item
    requires items != []
  {
    items[|items| - 1]
  }

  /** Pushing touches nothing but the list, whose last item is the last pushed. */
  predicate Grown(s: State, s': State, ids: seq<Text>) {
    && s'.passes == s.passes && s'.removed == s.removed && s'.accepted == s.accepted
    && s'.nextTicket == s.nextTicket + |ids|
    && (ids != [] ==>
        s'.items != [] && Last(s'.items).id == ids[|ids| - 1] && Last(s'.items).ticket == s'.nextTicket - 1)
  }

  lemma {:induction false} PushMany(cfg: Config, actions: seq<Action>, before: seq<Text>, s: State, ids: seq<Text>)
    returns (actions': seq<Action>, s': State)
    requires cfg.maxSize >= 1 && Carries(cfg, 0, actions, before, s)
    ensures Carries(cfg, 0, actions', before + ids, s') && Grown(s, s', ids)
    decreases |ids|
  {
    if ids == [] {
      actions', s' := actions, s;
      assert before + ids == before;
    } else {
      var n := |ids| - 1;
      var s1;
      actions', s1 := PushMany(cfg, actions, before, s, ids[..n]);
      var push := Push(ids[n], NO_ITEM.load, 0);
      s' := Next(cfg, s1, push).value;
      Continue(cfg, actions', before + ids[..n], s1, push, s');
      actions' := actions' + [push];
      assert before + ids[..n] + [ids[n]] == before + ids;
    }
  }

  /** The only pass is a flush whose first m sends were refused. */
  predicate Refusing(s: State, items: seq<Item>, m: nat) {
    && |s.passes| == 1 && s.passes[0] == Pass(false, s.passes[0].jobs, {}, Sending) && |s.passes[0].jobs| == |items|
    && forall k :: 0 <= k < |items| ==> s.passes[0].jobs[k] == Job(items[k], if k < m then Lost else Todo)
  }

  lemma {:induction false} RefuseMany(cfg: Config, actions: seq<Action>, ids: seq<Text>, s: State, items: seq<Item>,
                                      m: nat)
    returns (actions': seq<Action>, s': State)
    requires cfg.maxSize >= 1 && Carries(cfg, 0, actions, ids, s) && Refusing(s, items, 0) && m <= |items|
    ensures Carries(cfg, 0, actions', ids, s') && Refusing(s', items, m) && s' == s.(passes := s'.passes)
    decreases m
  {
    if m == 0 {
      actions', s' := actions, s;
    } else {
      var s1;
      actions', s1 := RefuseMany(cfg, actions, ids, s, items, m - 1);
      var a := Progress(0, m - 1, Sent(false));
      s' := Next(cfg, s1, a).value;
      Continue(cfg, actions', ids, s1, a, s');
      actions' := actions' + [a];
    }
  }

  /** The last job is accepted and counted; the flush is then settled. */
  lemma AcceptLast(cfg: Config, actions: seq<Action>, ids: seq<Text>, s: State, items: seq<Item>)
    returns (actions': seq<Action>, s': State)
    requires cfg.maxSize >= 1 && Carries(cfg, 0, actions, ids, s) && items != [] && Refusing(s, items, |items| - 1)
    ensures Carries(cfg, 0, actions', ids, s') && |s'.passes| == 1 && s'.passes[0].stage.Sending?
    ensures Settled(s'.passes[0])
    ensures s'.passes[0].ok == {Last(items).id} && s'.accepted == s.accepted + {Last(items).ticket}
    ensures s'.items == s.items && s'.removed == s.removed && s'.nextTicket == s.nextTicket
  {
    var n := |items| - 1;
    var a, b := Progress(0, n, Sent(true)), Progress(0, n, CountOk);
    var s1 := Next(cfg, s, a).value;
    Continue(cfg, actions, ids, s, a, s1);
    s' := Next(cfg, s1, b).value;
    Continue(cfg, actions + [a], ids, s1, b, s');
    actions' := actions + [a] + [b];
  }

  // ---------------------------------------------------------------- what a shared ID removes

  lemma {:induction false} TicketHasItem(items: seq<Item>, t: nat)
    requires t in Tickets(items)
    ensures exists x :: x in items && x.ticket == t
    decreases |items|
  {
    if items[0].ticket == t {
      assert items[0] in items;
    } else {
      TicketHasItem(items[1..], t);
      var x :| x in items[1..] && x.ticket == t;
      assert x in items;
    }
  }

  lemma {:induction false} ItemHasTicket(items: seq<Item>, x: Item)
    requires x in items
    ensures x.ticket in Tickets(items)
    decreases |items|
  {
    if x != items[0] {
      ItemHasTicket(items[1..], x);
    }
  }

  /** removeByIDs takes away every queued item with a listed ID. */
  lemma TicketGoes(s: State, x: Item, ids: set<Text>)
    requires Sorted(s) && x in s.items && x.id in ids
    ensures x.ticket in Tickets(s.items) && x.ticket !in Tickets(Without(s.items, ids))
  {
    ItemHasTicket(s.items, x);
    var left := Without(s.items, ids);
    if x.ticket in Tickets(left) {
      TicketHasItem(left, x.ticket);
      var y :| y in left && y.ticket == x.ticket;
      WithoutIff(s.items, ids, y);
      SameTicketSameItem(s, x, y);
    }
  }

  lemma Splice(ids: seq<Text>, i: nat, j: nat)
    requires i <= j <= |ids|
    ensures [] + ids[..i] == ids[..i] && ids[..i] + ids[i..j] == ids[..j] && ids[..i] + ids[i..] == ids
  {
  }

  /** Right after a push, a flush takes its snapshot. */
  lemma FlushAfter(cfg: Config, ids: seq<Text>) returns (actions: seq<Action>, s: State, items: seq<Item>)
    requires cfg.maxSize >= 1 && ids != []
    ensures Carries(cfg, 0, actions, ids, s) && s.removed == {} && s.accepted == {} && s.nextTicket == |ids|
    ensures items != [] && Last(items).id == ids[|ids| - 1] && Last(items).ticket == |ids| - 1 && Refusing(s, items, 0)
  {
    var s0 := Initial(0);
    assert Run(cfg, s0, []) == Some(s0);
    actions, s := PushMany(cfg, [], [], s0, ids);
    assert [] + ids == ids;
    items := s.items;
    var s1 := Next(cfg, s, BeginFlush).value;
    Continue(cfg, actions, ids, s, BeginFlush, s1);
    actions, s := actions + [BeginFlush], s1;
  }

  /** Item i is in the snapshot of a flush when item j, with the same ID, arrives. */
  lemma SharedIDArrives(cfg: Config, ids: seq<Text>, i: nat, j: nat)
    returns (actions: seq<Action>, s: State, items: seq<Item>)
    requires cfg.maxSize >= 1 && i < j < |ids|
    ensures Carries(cfg, 0, actions, ids[..j + 1], s) && s.removed == {} && s.accepted == {}
    ensures items != [] && Last(items).id == ids[i] && Last(items).ticket == i && Refusing(s, items, 0)
    ensures s.items != [] && Last(s.items).id == ids[j] && Last(s.items).ticket == j
  {
    Splice(ids, i + 1, j + 1);
    actions, s, items := FlushAfter(cfg, ids[..i + 1]);
    actions, s := PushMany(cfg, actions, ids[..i + 1], s, ids[i + 1..j + 1]);
  }

  lemma StaysSorted(cfg: Config, actions: seq<Action>, s: State)
    requires cfg.maxSize >= 1 && Run(cfg, Initial(0), actions) == Some(s)
    ensures Sorted(s)
  {
    ConservedRun(cfg, Initial(0), actions, s);
  }

  /** A settled flush removes the last queued item if it has an accepted ID. */
  lemma FinishRemovesLast(cfg: Config, actions: seq<Action>, ids: seq<Text>, s: State)
    returns (actions': seq<Action>, s': State)
    requires cfg.maxSize >= 1 && Carries(cfg, 0, actions, ids, s) && s.items != []
    requires |s.passes| == 1 && s.passes[0].stage.Sending? && Settled(s.passes[0]) && Last(s.items).id in s.passes[0].ok
    ensures Carries(cfg, 0, actions', ids, s') && Last(s.items).ticket in s'.removed && s'.accepted == s.accepted
  {
    StaysSorted(cfg, actions, s);
    assert Last(s.items) in s.items;
    TicketGoes(s, Last(s.items), s.passes[0].ok);
    s' := RemoveAccepted(cfg, s, 0);
    Continue(cfg, actions, ids, s, Finish(0), s');
    actions' := actions + [Finish(0)];
  }

  /** Whatever the queue's size, two pushes with one ID can lose an item: only the
      earlier one is sent and accepted, and the later one is removed. */
  lemma SharedIDRemovesUnsent(cfg: Config, ids: seq<Text>, i: nat, j: nat) returns (actions: seq<Action>, s: State)
    requires cfg.maxSize >= 1 && i < j < |ids| && ids[i] == ids[j]
    ensures Carries(cfg, 0, actions, ids, s) && s.accepted == {i} && j in s.removed
  {
    var front, items := ids[..j + 1], [];
    actions, s, items := SharedIDArrives(cfg, ids, i, j);
    actions, s := RefuseMany(cfg, actions, front, s, items, |items| - 1);
    actions, s := AcceptLast(cfg, actions, front, s, items);
    actions, s := FinishRemovesLast(cfg, actions, front, s);
    actions, s := PushMany(cfg, actions, front, s, ids[j + 1..]);
    Splice(ids, j + 1, |ids|);
  }

  /** Removals are owned in all runs that push these IDs, in this order, if and
      only if the IDs are pairwise distinct. */
  lemma OwnsRemovalsIff(cfg: Config, ids: seq<Text>)
    requires cfg.maxSize >= 1
    ensures OwnsRemovals(cfg, ids) <==> AllDistinct(ids)
  {
    if AllDistinct(ids) {
      forall start: int, actions: seq<Action>, s: State | Carries(cfg, start, actions, ids, s)
        ensures s.removed <= s.accepted
      {
        DistinctAreFresh(cfg, Initial(start), actions, s);
        RemovalsAreOwn(cfg, start, actions, s);
      }
    } else {
      var i, j :| 0 <= i < j < |ids| && ids[i] == ids[j];
      var actions, s := SharedIDRemovesUnsent(cfg, ids, i, j);
      assert j in s.removed && j !in s.accepted;
    }
  }
}
