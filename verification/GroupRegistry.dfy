/** The registry of node services, the three-phase sweep that prunes it, and node selection.

    A service is identified by its group and node: it is built once per pair and never replaced. */
module GroupRegistry {
  import opened GroupHeights

  /** `infos` lists the nodes of each known group, `services` the nodes that have a service. */
  datatype Registry = Registry(infos: map<string, set<string>>, services: map<string, set<string>>)

  type Lost = map<string, set<string>>

  function At(m: map<string, set<string>>, g: string): set<string> {
    if g in m then m[g] else {}
  }

  /** `updateGroupInfo`: the first notification of a group only records it; a later one builds the
      services that are missing, `buildable` naming those the factory can build. */
  function Notified(r: Registry, g: string, nodes: set<string>, buildable: set<string>): Registry {
    if g !in r.infos then r.(infos := r.infos[g := nodes])
    else
      var missing := nodes * buildable - At(r.services, g);
      if missing == {} then r
      else Registry(r.infos[g := r.infos[g] + missing], r.services[g := At(r.services, g) + missing])
  }

  /** The listed nodes of a group that have no service or cannot be reached. */
  function Unreachable(r: Registry, g: string, down: set<(string, string)>): set<string> {
    set n | n in At(r.infos, g) && (n !in At(r.services, g) || (g, n) in down)
  }

  /** `checkNodeStatus`: the nodes found lost, and the registry without them in the group lists. */
  function Found(r: Registry, down: set<(string, string)>): Lost {
    map g | g in r.infos && Unreachable(r, g, down) != {} :: Unreachable(r, g, down)
  }

  function Checked(r: Registry, down: set<(string, string)>): Registry {
    r.(infos := map g | g in r.infos :: r.infos[g] - Unreachable(r, g, down))
  }

  /** `removeUnreachableNodeService`: a group left without services loses its table. */
  function Pruned(r: Registry, lost: Lost): Registry {
    r.(services := map g | g in r.services && (g in lost ==> r.services[g] - lost[g] != {}) :: r.services[g] - At(lost, g))
  }

  // ---------- The manager: atomic steps, one per lock region ----------

  /** Between its lock regions a sweep holds the nodes it found lost. */
  datatype Sweep = Resting | Pending(lost: Lost) | Halfway(lost: Lost)

  datatype Manager = Manager(registry: Registry, index: Index, sweep: Sweep)

  const NEW_MANAGER: Manager := Manager(Registry(map[], map[]), NO_INDEX, Resting)

  datatype Action =
    | Notify(group: string, nodes: set<string>, buildable: set<string>)
    | BlockReport(group: string, node: string, height: int)
    | Check(down: set<(string, string)>)
    | RemoveServices
    | RemoveHeights

  /** A sweep goes through its phases in order; notifications and reports come at any time. */
  function Apply(m: Manager, a: Action): Manager {
    match a
    case Notify(g, nodes, buildable) => m.(registry := Notified(m.registry, g, nodes, buildable))
    case BlockReport(g, node, height) => m.(index := Reported(m.index, g, node, height))
    case Check(down) =>
      if !m.sweep.Resting? then m
      else if Found(m.registry, down) == map[] then m.(registry := Checked(m.registry, down))
      else Manager(Checked(m.registry, down), m.index, Pending(Found(m.registry, down)))
    case RemoveServices =>
      if !m.sweep.Pending? then m
      else Manager(Pruned(m.registry, m.sweep.lost), m.index, Halfway(m.sweep.lost))
    case RemoveHeights =>
      if !m.sweep.Halfway? then m
      else Manager(m.registry, Forgotten(m.index, m.sweep.lost), Resting)
  }

  function Run(m: Manager, acts: seq<Action>): Manager {
    if acts == [] then m else Apply(Run(m, acts[..|acts| - 1]), acts[|acts| - 1])
  }

  // ---------- The registry invariant ----------

  /** The sweep has found the node lost and has not yet removed its service. */
  predicate Doomed(s: Sweep, g: string, n: string) {
    s.Pending? && n in At(s.lost, g)
  }

  /** Every service is for a known group and, unless doomed, for a node on the group's list; no group
      maps to an empty table. */
  ghost predicate RegistryOk(r: Registry, s: Sweep) {
    && (forall g :: g in r.services ==> g in r.infos && r.services[g] != {})
    && (forall g, n :: g in r.services && n in r.services[g] ==> n in At(r.infos, g) || Doomed(s, g, n))
  }

  lemma NotifyKeeps(r: Registry, s: Sweep, g: string, nodes: set<string>, buildable: set<string>)
    requires RegistryOk(r, s)
    ensures RegistryOk(Notified(r, g, nodes, buildable), s)
  {
  }

  lemma CheckKeeps(r: Registry, down: set<(string, string)>)
    requires RegistryOk(r, Resting)
    ensures RegistryOk(Checked(r, down), Pending(Found(r, down)))
    ensures Found(r, down) == map[] ==> RegistryOk(Checked(r, down), Resting)
  {
    var r', lost := Checked(r, down), Found(r, down);
    forall g, n | g in r'.services && n in r'.services[g] ensures n in At(r'.infos, g) || n in At(lost, g) {
      assert n in At(r.infos, g);
      if n in Unreachable(r, g, down) {
        assert g in lost;
      }
    }
  }

  lemma PruneKeeps(r: Registry, lost: Lost)
    requires RegistryOk(r, Pending(lost))
    ensures RegistryOk(Pruned(r, lost), Halfway(lost))
  {
  }

  lemma ApplyKeepsRegistry(m: Manager, a: Action)
    requires RegistryOk(m.registry, m.sweep)
    ensures RegistryOk(Apply(m, a).registry, Apply(m, a).sweep)
  {
    match a
    case Notify(g, nodes, buildable) => NotifyKeeps(m.registry, m.sweep, g, nodes, buildable);
    case BlockReport(_, _, _) =>
    case Check(down) => if m.sweep.Resting? { CheckKeeps(m.registry, down); }
    case RemoveServices => if m.sweep.Pending? { PruneKeeps(m.registry, m.sweep.lost); }
    case RemoveHeights =>
  }

  /** The registry invariant holds in every state, however notifications fall between the phases. */
  lemma {:induction false} RegistryInvariant(acts: seq<Action>)
    ensures RegistryOk(Run(NEW_MANAGER, acts).registry, Run(NEW_MANAGER, acts).sweep)
  {
    if acts != [] {
      RegistryInvariant(acts[..|acts| - 1]);
      ApplyKeepsRegistry(Run(NEW_MANAGER, acts[..|acts| - 1]), acts[|acts| - 1]);
    }
  }

  // ---------- The index of a run is the index of its reports and removals ----------

  /** The height events of a run. */
  function HeightEvents(acts: seq<Action>): seq<Event> {
    if acts == [] then []
    else
      var m, a := Run(NEW_MANAGER, acts[..|acts| - 1]), acts[|acts| - 1];
      HeightEvents(acts[..|acts| - 1]) +
        if a.BlockReport? then [Report(a.group, a.node, a.height)]
        else if a.RemoveHeights? && m.sweep.Halfway? then [Forget(m.sweep.lost)]
        else []
  }

  /** In every run of the manager, the index agrees with the run's own height events. */
  lemma {:induction false} IndexOfRun(acts: seq<Action>, g: string)
    ensures Run(NEW_MANAGER, acts).index == IndexAfter(HeightEvents(acts))
    ensures Agrees(Run(NEW_MANAGER, acts).index, g, Since(HeightEvents(acts), g))
  {
    var h := HeightEvents(acts);
    if acts != [] {
      var prev := HeightEvents(acts[..|acts| - 1]);
      IndexOfRun(acts[..|acts| - 1], g);
      assert h == prev || (|h| == |prev| + 1 && h[..|prev|] == prev);
    }
    IndexRefinesHistory(h, g);
  }

  // ---------- The check phase ----------

  /** The check splits each group's list into kept and lost: a node is kept exactly when it has a
      service and can be reached, and none disappears. */
  lemma CheckSplits(r: Registry, down: set<(string, string)>, g: string)
    requires g in r.infos
    ensures var kept, lost := At(Checked(r, down).infos, g), At(Found(r, down), g);
      && kept + lost == r.infos[g] && kept !! lost
      && (forall n :: n in kept <==> n in r.infos[g] && n in At(r.services, g) && (g, n) !in down)
    ensures Checked(r, down).infos.Keys == r.infos.Keys
  {
  }

  // ---------- A swept node stays away ----------

  ghost predicate Registers(a: Action, g: string, n: string) {
    a.Notify? && a.group == g && n in a.nodes && n in a.buildable
  }

  ghost predicate Reports(a: Action, g: string, n: string) {
    a.BlockReport? && a.group == g && a.node == n
  }

  lemma {:induction false} ServiceStaysAway(m: Manager, acts: seq<Action>, g: string, n: string)
    requires n !in At(m.registry.services, g) && forall a :: a in acts ==> !Registers(a, g, n)
    ensures n !in At(Run(m, acts).registry.services, g)
  {
    if acts != [] {
      var a := acts[|acts| - 1];
      assert a in acts;
      ServiceStaysAway(m, acts[..|acts| - 1], g, n);
    }
  }

  lemma {:induction false} HeightStaysAway(m: Manager, acts: seq<Action>, g: string, n: string)
    requires n !in LatestOf(m.index, g) && forall a :: a in acts ==> !Reports(a, g, n)
    ensures n !in LatestOf(Run(m, acts).index, g)
  {
    if acts != [] {
      var a := acts[|acts| - 1];
      assert a in acts;
      HeightStaysAway(m, acts[..|acts| - 1], g, n);
    }
  }

  // ---------- Selection ----------

  /** The nodes that have a service and are on their group's list. */
  function Listed(r: Registry, g: string): set<string> {
    At(r.infos, g) * At(r.services, g)
  }

  /** What `getNodeService(group, "")` may return: the service of a listed node if no latest node is
      known (or one with an empty name is drawn), else the service of a latest node, or nothing. */
  ghost predicate MaySelect(r: Registry, x: Index, g: string, found: bool, node: string) {
    var latest, listed, served := LatestOf(x, g), Listed(r, g), At(r.services, g);
    || ((latest == {} || "" in latest) && (if found then node in listed else listed == {}))
    || (exists n :: n in latest && n != "" && (if found then node == n && n in served else n !in served))
  }

  /** A node drawn by the index `x` and looked up in the registry `r`, in whatever state that is by
      then, always gives a service. */
  ghost predicate AlwaysSelects(r: Registry, x: Index, g: string) {
    forall node :: !MaySelect(r, x, g, false, node)
  }

  /** Drawing and looking up are two steps. Selection finds a service whatever is drawn exactly when
      every named node that is latest at the draw has one at the lookup, and the fallback, where it can
      be taken, then has a listed service to offer. */
  lemma SelectionExact(r: Registry, x: Index, g: string)
    ensures AlwaysSelects(r, x, g) <==>
      && LatestOf(x, g) - {""} <= At(r.services, g)
      && (LatestOf(x, g) == {} || "" in LatestOf(x, g) ==> Listed(r, g) != {})
  {
    if !(LatestOf(x, g) - {""} <= At(r.services, g)) {
      var n :| n in LatestOf(x, g) - {""} && n !in At(r.services, g);
      assert MaySelect(r, x, g, false, "");
    } else if (LatestOf(x, g) == {} || "" in LatestOf(x, g)) && Listed(r, g) == {} {
      assert MaySelect(r, x, g, false, "");
    }
  }

  /** The fallback is complete: if a run knows no latest node of the group, then at any later state of
      the run selection finds a service whenever one exists that is not about to be removed. */
  lemma FallbackComplete(acts: seq<Action>, later: seq<Action>, g: string, n: string)
    requires LatestOf(Run(NEW_MANAGER, acts).index, g) == {}
    requires var m := Run(NEW_MANAGER, acts + later);
      n in At(m.registry.services, g) && !Doomed(m.sweep, g, n)
    ensures AlwaysSelects(Run(NEW_MANAGER, acts + later).registry, Run(NEW_MANAGER, acts).index, g)
  {
    RegistryInvariant(acts + later);
    var m := Run(NEW_MANAGER, acts + later);
    assert n in Listed(m.registry, g);
    SelectionExact(m.registry, Run(NEW_MANAGER, acts).index, g);
  }

  // ---------- A swept node is not selected ----------

  /** After its service was removed, a swept node is returned neither by name nor by selection,
      whenever its name was drawn, until it registers again; after its height was removed, its name is not drawn until it reports again. */
  lemma SweptStaysAway(m: Manager, acts: seq<Action>, g: string, n: string)
    requires !m.sweep.Resting? && n in At(m.sweep.lost, g)
    ensures m.sweep.Pending? && (forall a :: a in acts ==> !Registers(a, g, n)) ==>
      var m' := Run(Apply(m, RemoveServices), acts);
      n !in At(m'.registry.services, g) && forall x :: !MaySelect(m'.registry, x, g, true, n)
    ensures m.sweep.Halfway? && (forall a :: a in acts ==> !Reports(a, g, n)) ==>
      n !in LatestOf(Run(Apply(m, RemoveHeights), acts).index, g)
  {
    if m.sweep.Pending? && (forall a :: a in acts ==> !Registers(a, g, n)) {
      ServiceStaysAway(Apply(m, RemoveServices), acts, g, n);
    }
    if m.sweep.Halfway? && (forall a :: a in acts ==> !Reports(a, g, n)) {
      HeightStaysAway(Apply(m, RemoveHeights), acts, g, n);
    }
  }

  /** A block report by a node without a service hides a registered service from selection. */
  lemma ReportHidesService(g: string, a: string, b: string, height: int)
    requires a != b && b != ""
    ensures var m := Run(NEW_MANAGER, [Notify(g, {a}, {}), Notify(g, {a}, {a}), BlockReport(g, b, height)]);
      a in Listed(m.registry, g) && m.sweep.Resting? && !AlwaysSelects(m.registry, m.index, g)
  {
    var a1, a2, a3 := Notify(g, {a}, {}), Notify(g, {a}, {a}), BlockReport(g, b, height);
    assert [] + [a1] == [a1] && [a1] + [a2] == [a1, a2] && [a1, a2] + [a3] == [a1, a2, a3];
    Run1(NEW_MANAGER, [], a1);
    Run1(NEW_MANAGER, [a1], a2);
    Run1(NEW_MANAGER, [a1, a2], a3);
    assert Run(NEW_MANAGER, [a1]) == NEW_MANAGER.(registry := Registry(map[g := {a}], map[]));
    assert {a} * {a} - {} == {a} && {a} + {a} == {a} && {} + {a} == {a};
    var m := Run(NEW_MANAGER, [a1, a2, a3]);
    assert m.registry == Registry(map[g := {a}], map[g := {a}]);
    assert b in LatestOf(m.index, g) - {""};
    SelectionExact(m.registry, m.index, g);
  }

  lemma Run1(m: Manager, acts: seq<Action>, a: Action)
    ensures Run(m, acts + [a]) == Apply(Run(m, acts), a)
  {
    assert (acts + [a])[..|acts|] == acts;
  }
}
