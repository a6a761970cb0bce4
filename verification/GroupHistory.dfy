/** What the registry holds, told by the history of notifications and sweeps. */
module GroupHistory {
  import opened GroupHeights
  import opened GroupRegistry

  // ---------- Which groups are known ----------

  predicate Notifies(a: Action, g: string) { a.Notify? && a.group == g }

  /** Some notification of the group came before step `i`. */
  ghost predicate KnownBefore(acts: seq<Action>, i: nat, g: string)
    requires i <= |acts|
  {
    exists k :: 0 <= k < i && Notifies(acts[k], g)
  }

  lemma KnownGrows(acts: seq<Action>, a: Action, g: string)
    ensures KnownBefore(acts + [a], |acts| + 1, g) <==> KnownBefore(acts, |acts|, g) || Notifies(a, g)
    ensures forall i: nat :: i <= |acts| ==> (KnownBefore(acts + [a], i, g) <==> KnownBefore(acts, i, g))
  {
    var h := acts + [a];
    assert h[|acts|] == a;
    assert forall k :: 0 <= k < |acts| ==> h[k] == acts[k];
  }

  lemma KnownAfter(m: Manager, a: Action, g: string)
    ensures g in Apply(m, a).registry.infos <==> g in m.registry.infos || Notifies(a, g)
  {
  }

  lemma {:induction false} GroupsFollowHistory(acts: seq<Action>, g: string)
    ensures g in Run(NEW_MANAGER, acts).registry.infos <==> KnownBefore(acts, |acts|, g)
  {
    if acts != [] {
      var prev, a := acts[..|acts| - 1], acts[|acts| - 1];
      assert prev + [a] == acts;
      GroupsFollowHistory(prev, g);
      KnownGrows(prev, a, g);
      KnownAfter(Run(NEW_MANAGER, prev), a, g);
    }
  }

  // ---------- Which nodes have a service ----------

  /** Step `i` names the node, as one that can be built, in a notification that is not the first of its
      group. */
  ghost predicate Builds(acts: seq<Action>, i: nat, g: string, n: string)
    requires i < |acts|
  {
    Notifies(acts[i], g) && n in acts[i].nodes && n in acts[i].buildable && KnownBefore(acts, i, g)
  }

  /** In state `m`, action `a` removes the services of a sweep that holds the node as lost. */
  predicate Removes(m: Manager, a: Action, g: string, n: string) {
    a.RemoveServices? && m.sweep.Pending? && n in At(m.sweep.lost, g)
  }

  ghost predicate BuiltSince(acts: seq<Action>, i: nat, g: string, n: string) {
    && i < |acts| && Builds(acts, i, g, n)
    && forall j :: i < j < |acts| ==> !Removes(Run(NEW_MANAGER, acts[..j]), acts[j], g, n)
  }

  lemma BuiltGrows(acts: seq<Action>, a: Action, g: string, n: string)
    ensures (exists i: nat :: BuiltSince(acts + [a], i, g, n)) <==>
      || (Notifies(a, g) && n in a.nodes && n in a.buildable && KnownBefore(acts, |acts|, g))
      || (!Removes(Run(NEW_MANAGER, acts), a, g, n) && exists i: nat :: BuiltSince(acts, i, g, n))
  {
    hide Apply, Removes, KnownBefore;
    var h := acts + [a];
    KnownGrows(acts, a, g);
    assert h[|acts|] == a && h[..|acts|] == acts;
    assert forall j :: 0 <= j < |acts| ==> h[j] == acts[j] && h[..j] == acts[..j];
    if Notifies(a, g) && n in a.nodes && n in a.buildable && KnownBefore(acts, |acts|, g) {
      assert BuiltSince(h, |acts|, g, n);
    }
    if !Removes(Run(NEW_MANAGER, acts), a, g, n) {
      if i: nat :| BuiltSince(acts, i, g, n) {
        assert BuiltSince(h, i, g, n);
      }
    }
    if i: nat :| BuiltSince(h, i, g, n) {
      if i < |acts| {
        assert BuiltSince(acts, i, g, n) && !Removes(Run(NEW_MANAGER, h[..|acts|]), h[|acts|], g, n);
      }
    }
  }

  lemma ServedAfter(m: Manager, a: Action, g: string, n: string)
    ensures n in At(Apply(m, a).registry.services, g) <==>
      || (Notifies(a, g) && n in a.nodes && n in a.buildable && g in m.registry.infos)
      || (n in At(m.registry.services, g) && !Removes(m, a, g, n))
  {
  }

  /** In every run, a node has a service if and only if some notification that is not the first of its
      group named it as buildable, and no sweep that held it as lost has removed services since. */
  lemma {:induction false} ServicesFollowHistory(acts: seq<Action>, g: string, n: string)
    ensures n in At(Run(NEW_MANAGER, acts).registry.services, g) <==> exists i: nat :: BuiltSince(acts, i, g, n)
  {
    hide Apply, Removes, KnownBefore;
    if acts != [] {
      var prev, a := acts[..|acts| - 1], acts[|acts| - 1];
      assert prev + [a] == acts;
      ServicesFollowHistory(prev, g, n);
      GroupsFollowHistory(prev, g);
      BuiltGrows(prev, a, g, n);
      ServedAfter(Run(NEW_MANAGER, prev), a, g, n);
    }
  }

  // ---------- Which nodes are listed ----------

  ghost predicate HasService(m: Manager, g: string, n: string) { n in At(m.registry.services, g) }
  ghost predicate IsListed(m: Manager, g: string, n: string) { n in At(m.registry.infos, g) }

  /** A notification that names the node: the first of its group, or a later one that can build the node
      while it has no service. */
  ghost predicate Enlists(m: Manager, a: Action, g: string, n: string) {
    && Notifies(a, g) && n in a.nodes
    && (g in m.registry.infos ==> n in a.buildable && !HasService(m, g, n))
  }

  /** A check, made while no sweep is under way, that finds the node without a service or unreachable. */
  ghost predicate Delists(m: Manager, a: Action, g: string, n: string) {
    a.Check? && m.sweep.Resting? && (!HasService(m, g, n) || (g, n) in a.down)
  }

  ghost predicate ListedSince(acts: seq<Action>, i: nat, g: string, n: string) {
    && i < |acts| && Enlists(Run(NEW_MANAGER, acts[..i]), acts[i], g, n)
    && forall j :: i < j < |acts| ==> !Delists(Run(NEW_MANAGER, acts[..j]), acts[j], g, n)
  }

  lemma ListedGrows(acts: seq<Action>, a: Action, g: string, n: string)
    ensures (exists i: nat :: ListedSince(acts + [a], i, g, n)) <==>
      || Enlists(Run(NEW_MANAGER, acts), a, g, n)
      || (!Delists(Run(NEW_MANAGER, acts), a, g, n) && exists i: nat :: ListedSince(acts, i, g, n))
  {
    hide Apply, Enlists, Delists;
    var h := acts + [a];
    assert h[|acts|] == a && h[..|acts|] == acts;
    assert forall j :: 0 <= j < |acts| ==> h[j] == acts[j] && h[..j] == acts[..j];
    if Enlists(Run(NEW_MANAGER, acts), a, g, n) {
      assert ListedSince(h, |acts|, g, n);
    }
    if !Delists(Run(NEW_MANAGER, acts), a, g, n) {
      if i: nat :| ListedSince(acts, i, g, n) {
        assert ListedSince(h, i, g, n);
      }
    }
    if i: nat :| ListedSince(h, i, g, n) {
      if i < |acts| {
        assert ListedSince(acts, i, g, n) && !Delists(Run(NEW_MANAGER, h[..|acts|]), h[|acts|], g, n);
      }
    }
  }

  lemma ListedAfter(m: Manager, a: Action, g: string, n: string)
    ensures IsListed(Apply(m, a), g, n) <==> Enlists(m, a, g, n) || (IsListed(m, g, n) && !Delists(m, a, g, n))
  {
  }

  /** In every run, a node is on its group's list if and only if a notification has put it there and no
      check has found it without a service or unreachable since. */
  lemma {:induction false} ListsFollowHistory(acts: seq<Action>, g: string, n: string)
    ensures IsListed(Run(NEW_MANAGER, acts), g, n) <==> exists i: nat :: ListedSince(acts, i, g, n)
  {
    hide Apply, Enlists, Delists;
    if acts != [] {
      var prev, a := acts[..|acts| - 1], acts[|acts| - 1];
      assert prev + [a] == acts;
      ListsFollowHistory(prev, g, n);
      ListedGrows(prev, a, g, n);
      ListedAfter(Run(NEW_MANAGER, prev), a, g, n);
    }
  }

  // ---------- One notification ----------

  /** In every run, the first notification of a group lists exactly its nodes and builds nothing. */
  lemma FirstNotification(acts: seq<Action>, g: string, nodes: set<string>, buildable: set<string>)
    requires !KnownBefore(acts, |acts|, g)
    ensures var m := Run(NEW_MANAGER, acts + [Notify(g, nodes, buildable)]);
      At(m.registry.infos, g) == nodes && At(m.registry.services, g) == {}
  {
    GroupsFollowHistory(acts, g);
    RegistryInvariant(acts);
    Run1(NEW_MANAGER, acts, Notify(g, nodes, buildable));
  }

  /** In every run, after a later notification every buildable node it names has a service; it is listed
      as well, except that a node is not listed anew while a sweep is about to remove its service. */
  lemma LaterNotification(acts: seq<Action>, g: string, nodes: set<string>, buildable: set<string>, n: string)
    requires KnownBefore(acts, |acts|, g) && n in nodes && n in buildable
    ensures var m, m' := Run(NEW_MANAGER, acts), Run(NEW_MANAGER, acts + [Notify(g, nodes, buildable)]);
      && HasService(m', g, n)
      && (IsListed(m', g, n) <==> IsListed(m, g, n) || !HasService(m, g, n))
      && (!Doomed(m.sweep, g, n) ==> IsListed(m', g, n))
  {
    var m := Run(NEW_MANAGER, acts);
    GroupsFollowHistory(acts, g);
    RegistryInvariant(acts);
    Run1(NEW_MANAGER, acts, Notify(g, nodes, buildable));
    ServedAfter(m, Notify(g, nodes, buildable), g, n);
    ListedAfter(m, Notify(g, nodes, buildable), g, n);
  }

  /** A node that comes back between the check that loses it and the removal of its service ends up
      without a service and off the list. */
  lemma ReturnLost(g: string, n: string)
    ensures var again := Notify(g, {n}, {n});
      var m := Run(NEW_MANAGER, [Notify(g, {n}, {}), again, Check({(g, n)}), again, RemoveServices]);
      !HasService(m, g, n) && !IsListed(m, g, n)
  {
    var a1, a2, a3, a5 := Notify(g, {n}, {}), Notify(g, {n}, {n}), Check({(g, n)}), RemoveServices;
    var m1 := Apply(NEW_MANAGER, a1);
    var m2 := Apply(m1, a2);
    var m3 := Apply(m2, a3);
    var m4 := Apply(m3, a2);
    assert Run(NEW_MANAGER, [a1, a2, a3, a2, a5]) == Apply(m4, a5) by {
      FiveSteps(a1, a2, a3, a2, a5);
    }
    assert n in At(m2.registry.services, g) && n in At(m2.registry.infos, g);
    ListedAfter(m2, a3, g, n);
    ServedAfter(m2, a3, g, n);
    CheckExact(m2, {(g, n)}, g, n);
    ListedAfter(m3, a2, g, n);
    ListedAfter(m4, a5, g, n);
    ServedAfter(m4, a5, g, n);
  }

  lemma FiveSteps(a: Action, b: Action, c: Action, d: Action, e: Action)
    ensures Run(NEW_MANAGER, [a, b, c, d, e]) ==
      Apply(Apply(Apply(Apply(Apply(NEW_MANAGER, a), b), c), d), e)
  {
    hide Apply;
    assert [] + [a] == [a] && [a] + [b] == [a, b] && [a, b] + [c] == [a, b, c];
    assert [a, b, c] + [d] == [a, b, c, d] && [a, b, c, d] + [e] == [a, b, c, d, e];
    Run1(NEW_MANAGER, [], a);
    Run1(NEW_MANAGER, [a], b);
    Run1(NEW_MANAGER, [a, b], c);
    Run1(NEW_MANAGER, [a, b, c], d);
    Run1(NEW_MANAGER, [a, b, c, d], e);
  }

  // ---------- One sweep ----------

  /** The check of a sweep finds the node: it is listed, and has no service or cannot be reached. */
  ghost predicate Finds(m: Manager, down: set<(string, string)>, g: string, n: string) {
    IsListed(m, g, n) && (!HasService(m, g, n) || (g, n) in down)
  }

  /** A check takes exactly the nodes it finds off the lists, and a sweep is under way, holding exactly
      these, unless it finds none. */
  lemma CheckExact(m: Manager, down: set<(string, string)>, g: string, n: string)
    requires m.sweep.Resting?
    ensures var m' := Apply(m, Check(down));
      && (IsListed(m', g, n) <==> IsListed(m, g, n) && !Finds(m, down, g, n))
      && m'.registry.services == m.registry.services && m'.index == m.index
      && (m'.sweep.Resting? || m'.sweep.Pending?)
      && (Finds(m, down, g, n) <==> m'.sweep.Pending? && n in At(m'.sweep.lost, g))
      && (m'.sweep.Pending? ==> exists g', n' :: Finds(m, down, g', n'))
  {
    var lost := Found(m.registry, down);
    if Finds(m, down, g, n) {
      assert n in Unreachable(m.registry, g, down) && g in lost;
    }
    if lost != map[] {
      assert lost.Keys != {};
      var g' :| g' in lost;
      var n' :| n' in lost[g'];
      assert Finds(m, down, g', n');
    }
  }

  /** Notifications and block reports, which may come between the phases of a sweep. */
  predicate Outside(acts: seq<Action>) {
    forall a :: a in acts ==> a.Notify? || a.BlockReport?
  }

  lemma {:induction false} OutsideKeepsSweep(m: Manager, acts: seq<Action>)
    requires Outside(acts)
    ensures Run(m, acts).sweep == m.sweep
  {
    if acts != [] {
      assert acts[|acts| - 1] in acts;
      OutsideKeepsSweep(m, acts[..|acts| - 1]);
    }
  }

  /** The manager at the end of a sweep with `mid` between its first phases and `late` between its last. */
  ghost function Swept(m: Manager, down: set<(string, string)>, mid: seq<Action>, late: seq<Action>): Manager {
    Apply(Run(Apply(Run(Apply(m, Check(down)), mid), RemoveServices), late), RemoveHeights)
  }

  /** A sweep that finds a node comes to its end: whatever is notified in between, it is then over, the
      node is not a latest node, and it has no service unless it was notified again after the services
      were removed. */
  lemma SweepExact(m: Manager, down: set<(string, string)>, mid: seq<Action>, late: seq<Action>, g: string, n: string)
    requires m.sweep.Resting? && Finds(m, down, g, n) && Outside(mid) && Outside(late)
    ensures var m' := Swept(m, down, mid, late);
      && m'.sweep.Resting?
      && n !in LatestOf(m'.index, g)
      && (HasService(m', g, n) ==> exists a :: a in late && Registers(a, g, n))
  {
    CheckExact(m, down, g, n);
    var m1 := Run(Apply(m, Check(down)), mid);
    OutsideKeepsSweep(Apply(m, Check(down)), mid);
    var m2 := Apply(m1, RemoveServices);
    ServedAfter(m1, RemoveServices, g, n);
    assert m2.sweep == Halfway(m1.sweep.lost);
    OutsideKeepsSweep(m2, late);
    if forall a :: a in late ==> !Registers(a, g, n) {
      ServiceStaysAway(m2, late, g, n);
    }
    ServedAfter(Run(m2, late), RemoveHeights, g, n);
  }
}
