/** The group manager object: its four maps and the methods that update them in place. */
module GroupManager {
  import opened GroupHeights
  import opened GroupRegistry

  class GroupManager {
    var groupInfos: map<string, set<string>>
    var nodeServiceList: map<string, set<string>>
    var nodesWithLatestBlockNumber: map<string, set<string>>
    var groupBlockInfos: map<string, int>

    function Services(): Registry
      reads this
    {
      Registry(groupInfos, nodeServiceList)
    }

    function Heights(): Index
      reads this
    {
      Index(nodesWithLatestBlockNumber, groupBlockInfos)
    }

    constructor ()
      ensures Services() == NEW_MANAGER.registry && Heights() == NO_INDEX
    {
      groupInfos, nodeServiceList, nodesWithLatestBlockNumber, groupBlockInfos := map[], map[], map[], map[];
    }

    /** Builds the service of one node of a known group unless it exists or cannot be built. */
    method UpdateNodeService(group: string, node: string, built: bool)
      requires group in groupInfos
      modifies this`groupInfos, this`nodeServiceList
      ensures Services() == Notified(old(Services()), group, {node}, if built then {node} else {})
      ensures forall n :: n in At(nodeServiceList, group) <==>
                n in At(old(nodeServiceList), group) || (n == node && built)
      ensures forall n :: n in At(groupInfos, group) <==>
                n in At(old(groupInfos), group) || (n == node && built && node !in At(old(nodeServiceList), group))
    {
      if group in nodeServiceList && node in nodeServiceList[group] {
        return;
      }
      if !built {
        return;
      }
      assert {node} * {node} - At(nodeServiceList, group) == {node};
      nodeServiceList := nodeServiceList[group := At(nodeServiceList, group) + {node}];
      groupInfos := groupInfos[group := groupInfos[group] + {node}];
    }

    method UpdateGroupInfo(group: string, nodes: set<string>, buildable: set<string>)
      modifies this`groupInfos, this`nodeServiceList
      ensures Services() == Notified(old(Services()), group, nodes, buildable)
      ensures forall n :: n in At(nodeServiceList, group) <==>
                n in At(old(nodeServiceList), group) || (group in old(groupInfos) && n in nodes && n in buildable)
      ensures forall n :: n in At(groupInfos, group) <==>
                n in At(old(groupInfos), group) ||
                (n in nodes && (group in old(groupInfos) ==> n in buildable && n !in At(old(nodeServiceList), group)))
    {
      if group !in groupInfos {
        groupInfos := groupInfos[group := nodes];
        return;
      }
      var left := nodes;
      NotifiedEnds(Services(), group, nodes, buildable);
      while left != {}
        invariant left <= nodes && group in groupInfos
        invariant Services() == Notified(old(Services()), group, nodes - left, buildable)
        decreases |left|
      {
        var node :| node in left;
        UpdateNodeService(group, node, node in buildable);
        NotifiedStep(old(Services()), group, nodes, left, node, buildable);
        left := left - {node};
      }
    }

    method UpdateGroupBlockInfo(group: string, node: string, height: int)
      modifies this`nodesWithLatestBlockNumber, this`groupBlockInfos
      ensures Heights() == Reported(old(Heights()), group, node, height)
    {
      if group in groupBlockInfos {
        if groupBlockInfos[group] > height {
          return;
        }
        if groupBlockInfos[group] == height && group in nodesWithLatestBlockNumber && node in nodesWithLatestBlockNumber[group] {
          assert nodesWithLatestBlockNumber[group] + {node} == nodesWithLatestBlockNumber[group];
          assert nodesWithLatestBlockNumber[group := nodesWithLatestBlockNumber[group]] == nodesWithLatestBlockNumber;
          return;
        }
      }
      ghost var was := nodesWithLatestBlockNumber;
      var oldBlockNumber := if group in groupBlockInfos then groupBlockInfos[group] else 0;
      if group !in nodesWithLatestBlockNumber {
        nodesWithLatestBlockNumber := nodesWithLatestBlockNumber[group := {}];
      }
      if oldBlockNumber < height {
        groupBlockInfos := groupBlockInfos[group := height];
        nodesWithLatestBlockNumber := nodesWithLatestBlockNumber[group := {}];
      }
      nodesWithLatestBlockNumber := nodesWithLatestBlockNumber[group := nodesWithLatestBlockNumber[group] + {node}];
      assert {} + {node} == {node};
      assert nodesWithLatestBlockNumber == was[group := nodesWithLatestBlockNumber[group]];
    }

    /** Collects the lost nodes of one group; the group's list is left to the caller. */
    method CheckGroup(group: string, down: set<(string, string)>) returns (lost: set<string>)
      requires group in groupInfos
      ensures lost == Unreachable(Services(), group, down)
    {
      lost := {};
      var left := groupInfos[group];
      while left != {}
        invariant left <= groupInfos[group]
        invariant forall n :: n in lost <==>
                    n in groupInfos[group] && n !in left && (n !in At(nodeServiceList, group) || (group, n) in down)
        decreases |left|
      {
        var node :| node in left;
        if group !in nodeServiceList || node !in nodeServiceList[group] || (group, node) in down {
          lost := lost + {node};
        }
        left := left - {node};
      }
    }

    method CheckNodeStatus(down: set<(string, string)>) returns (unreachable: map<string, set<string>>)
      modifies this`groupInfos
      ensures Services() == Checked(old(Services()), down)
      ensures unreachable == Found(old(Services()), down)
      ensures forall g, n :: n in At(groupInfos, g) <==>
                n in At(old(groupInfos), g) && n in At(nodeServiceList, g) && (g, n) !in down
      ensures forall g, n :: n in At(unreachable, g) <==>
                n in At(old(groupInfos), g) && (n !in At(nodeServiceList, g) || (g, n) in down)
    {
      unreachable := map[];
      var left := groupInfos.Keys;
      ghost var was := Services();
      CheckedEnds(was, down);
      while left != {}
        invariant left <= was.infos.Keys
        invariant groupInfos == CheckedBut(was, down, left)
        invariant unreachable == FoundBut(was, down, left)
        decreases |left|
      {
        var group :| group in left;
        var lost := CheckGroup(group, down);
        CheckedStep(was, down, left, group, lost);
        groupInfos := groupInfos[group := groupInfos[group] - lost];
        if lost != {} {
          unreachable := unreachable[group := lost];
        }
        left := left - {group};
      }
    }

    method RemoveUnreachableNodeService(lost: map<string, set<string>>)
      modifies this`nodeServiceList
      ensures Services() == Pruned(old(Services()), lost)
      ensures forall g, n :: n in At(nodeServiceList, g) <==> n in At(old(nodeServiceList), g) && n !in At(lost, g)
    {
      var left := lost.Keys;
      ghost var was := nodeServiceList;
      while left != {}
        invariant left <= lost.Keys
        invariant nodeServiceList == PrunedBut(was, lost, left)
        decreases |left|
      {
        var group :| group in left;
        PrunedStep(was, lost, left, group);
        if group in nodeServiceList {
          nodeServiceList := nodeServiceList[group := nodeServiceList[group] - lost[group]];
          if nodeServiceList[group] == {} {
            nodeServiceList := nodeServiceList - {group};
          }
        }
        left := left - {group};
      }
      PrunedAll(old(Services()), lost);
    }

    /** Takes the lost nodes of a group off its latest nodes, one by one. */
    method RemoveLatest(group: string, nodes: set<string>)
      requires group in nodesWithLatestBlockNumber
      modifies this`nodesWithLatestBlockNumber
      ensures nodesWithLatestBlockNumber == old(nodesWithLatestBlockNumber)[group := old(nodesWithLatestBlockNumber)[group] - nodes]
    {
      var left := nodes;
      ghost var was := nodesWithLatestBlockNumber;
      RemovedNone(was, group, nodes);
      while left != {}
        invariant left <= nodes && group in nodesWithLatestBlockNumber
        invariant nodesWithLatestBlockNumber == was[group := was[group] - (nodes - left)]
        decreases |left|
      {
        var node :| node in left;
        RemovedOne(was, group, nodes, left, node);
        nodesWithLatestBlockNumber := nodesWithLatestBlockNumber[group := nodesWithLatestBlockNumber[group] - {node}];
        left := left - {node};
      }
      assert nodes - left == nodes;
    }

    /** Forgets the lost nodes of one group. */
    method RemoveFromGroup(group: string, nodes: set<string>)
      modifies this`nodesWithLatestBlockNumber, this`groupBlockInfos
      ensures Heights() == ForgottenGroup(old(Heights()), group, nodes)
    {
      if group !in nodesWithLatestBlockNumber {
        assert nodesWithLatestBlockNumber - {group} == nodesWithLatestBlockNumber;
        groupBlockInfos := groupBlockInfos - {group};
        return;
      }
      if group !in groupBlockInfos {
        assert groupBlockInfos - {group} == groupBlockInfos;
        nodesWithLatestBlockNumber := nodesWithLatestBlockNumber - {group};
        return;
      }
      ghost var was := nodesWithLatestBlockNumber;
      RemoveLatest(group, nodes);
      if nodesWithLatestBlockNumber[group] == {} {
        UpdatedAndErased(was, group, nodesWithLatestBlockNumber[group]);
        groupBlockInfos := groupBlockInfos - {group};
        nodesWithLatestBlockNumber := nodesWithLatestBlockNumber - {group};
      }
    }

    method RemoveGroupBlockInfo(lost: map<string, set<string>>)
      modifies this`nodesWithLatestBlockNumber, this`groupBlockInfos
      ensures Heights() == Forgotten(old(Heights()), lost)
    {
      var left := lost.Keys;
      ghost var was := Heights();
      while left != {}
        invariant left <= lost.Keys
        invariant Heights() == Forgotten(was, lost - left)
        decreases |left|
      {
        var group :| group in left;
        ForgottenStep(was, lost, left, group);
        RemoveFromGroup(group, lost[group]);
        left := left - {group};
      }
      assert lost - {} == lost;
    }

    /** The name of a latest node drawn at random, or the empty name if there is none. */
    method SelectNodeByBlockNumber(group: string) returns (name: string)
      ensures if LatestOf(Heights(), group) == {} then name == "" else name in LatestOf(Heights(), group)
    {
      if group !in nodesWithLatestBlockNumber || nodesWithLatestBlockNumber[group] == {} {
        return "";
      }
      name :| name in nodesWithLatestBlockNumber[group];
    }

    /** A listed node with a service, found if there is one. */
    method SelectNodeRandomly(group: string) returns (found: bool, node: string)
      ensures found <==> Listed(Services(), group) != {}
      ensures found ==> node in Listed(Services(), group)
    {
      if group !in groupInfos || group !in nodeServiceList {
        return false, "";
      }
      var left := groupInfos[group];
      while left != {}
        invariant left <= groupInfos[group]
        invariant forall n :: n in Listed(Services(), group) ==> n in left
        decreases |left|
      {
        node :| node in left;
        if node in nodeServiceList[group] {
          assert node in Listed(Services(), group);
          return true, node;
        }
        left := left - {node};
      }
      return false, "";
    }

    method QueryNodeService(group: string, name: string) returns (found: bool)
      ensures found <==> name in At(nodeServiceList, group)
    {
      return group in nodeServiceList && name in nodeServiceList[group];
    }

    /** The second step of selection, after `drawn` was drawn by the index `x`: the manager may have
        changed in between. */
    method SelectDrawn(group: string, drawn: string, ghost x: Index) returns (found: bool, node: string)
      requires if LatestOf(x, group) == {} then drawn == "" else drawn in LatestOf(x, group)
      ensures MaySelect(Services(), x, group, found, node)
      ensures drawn != "" ==> node == drawn && (found <==> drawn in At(nodeServiceList, group))
      ensures drawn == "" ==>
                (found <==> exists n :: n in At(groupInfos, group) && n in At(nodeServiceList, group)) &&
                (found ==> node in At(groupInfos, group) && node in At(nodeServiceList, group))
    {
      if drawn == "" {
        found, node := SelectNodeRandomly(group);
        assert forall n :: n in Listed(Services(), group) <==> n in At(groupInfos, group) && n in At(nodeServiceList, group);
      } else {
        found := QueryNodeService(group, drawn);
        node := drawn;
      }
    }

    /** `getNodeService`: by name, or else by selection. */
    method GetNodeService(group: string, name: string) returns (found: bool, node: string)
      ensures name != "" ==> (found <==> name in At(nodeServiceList, group)) && (found ==> node == name)
      ensures name == "" ==> MaySelect(Services(), Heights(), group, found, node)
    {
      if name != "" {
        found := QueryNodeService(group, name);
        return found, name;
      }
      var drawn := SelectNodeByBlockNumber(group);
      found, node := SelectDrawn(group, drawn, Heights());
    }

    /** The known groups that list at least one node. */
    method GroupList() returns (groups: set<string>)
      ensures groups == set g | g in groupInfos && groupInfos[g] != {}
    {
      groups := {};
      var left := groupInfos.Keys;
      while left != {}
        invariant left <= groupInfos.Keys
        invariant groups == set g | g in groupInfos && g !in left && groupInfos[g] != {}
        decreases |left|
      {
        var group :| group in left;
        if groupInfos[group] != {} {
          groups := groups + {group};
        }
        left := left - {group};
      }
    }
  }

  lemma RemovedNone(m: map<string, set<string>>, g: string, nodes: set<string>)
    requires g in m
    ensures m[g := m[g] - (nodes - nodes)] == m
  {
    assert m[g] - (nodes - nodes) == m[g];
  }

  lemma RemovedOne(m: map<string, set<string>>, g: string, nodes: set<string>, left: set<string>, node: string)
    requires g in m && left <= nodes && node in left
    ensures m[g := m[g] - (nodes - left)][g := m[g] - (nodes - left) - {node}] == m[g := m[g] - (nodes - (left - {node}))]
  {
    assert m[g] - (nodes - left) - {node} == m[g] - (nodes - (left - {node}));
  }

  lemma UpdatedAndErased(m: map<string, set<string>>, g: string, s: set<string>)
    ensures m[g := s] - {g} == m - {g}
  {
  }

  // ---------- What the loops have done when the groups of `left` are still to come ----------

  ghost function CheckedBut(r: Registry, down: set<(string, string)>, left: set<string>): map<string, set<string>> {
    map g | g in r.infos :: if g in left then r.infos[g] else r.infos[g] - Unreachable(r, g, down)
  }

  ghost function FoundBut(r: Registry, down: set<(string, string)>, left: set<string>): map<string, set<string>> {
    map g | g in r.infos && g !in left && Unreachable(r, g, down) != {} :: Unreachable(r, g, down)
  }

  lemma CheckedStep(r: Registry, down: set<(string, string)>, left: set<string>, g: string, lost: set<string>)
    requires g in left && g in r.infos
    requires lost == Unreachable(Registry(CheckedBut(r, down, left), r.services), g, down)
    ensures lost == Unreachable(r, g, down)
    ensures CheckedBut(r, down, left - {g}) == CheckedBut(r, down, left)[g := CheckedBut(r, down, left)[g] - lost]
    ensures FoundBut(r, down, left - {g}) ==
      if lost == {} then FoundBut(r, down, left) else FoundBut(r, down, left)[g := lost]
  {
  }

  lemma CheckedEnds(r: Registry, down: set<(string, string)>)
    ensures CheckedBut(r, down, r.infos.Keys) == r.infos && FoundBut(r, down, r.infos.Keys) == map[]
    ensures CheckedBut(r, down, {}) == Checked(r, down).infos && FoundBut(r, down, {}) == Found(r, down)
  {
  }

  ghost function PrunedBut(was: map<string, set<string>>, lost: map<string, set<string>>, left: set<string>): map<string, set<string>> {
    map g | g in was && (g in lost && g !in left ==> was[g] - lost[g] != {}) ::
      if g in lost && g !in left then was[g] - lost[g] else was[g]
  }

  lemma PrunedStep(was: map<string, set<string>>, lost: map<string, set<string>>, left: set<string>, g: string)
    requires g in left && g in lost
    ensures var m := PrunedBut(was, lost, left);
      PrunedBut(was, lost, left - {g}) ==
      if g !in m then m else if m[g] - lost[g] == {} then m[g := {}] - {g} else m[g := m[g] - lost[g]]
  {
  }

  lemma PrunedAll(r: Registry, lost: map<string, set<string>>)
    ensures Pruned(r, lost).services == PrunedBut(r.services, lost, {})
  {
    assert forall g :: g in r.services && g !in lost ==> r.services[g] - At(lost, g) == r.services[g];
  }

  function ForgottenGroup(x: Index, g: string, nodes: set<string>): Index {
    if Stays(x, g, nodes) then Index(x.latest[g := x.latest[g] - nodes], x.heights)
    else Index(x.latest - {g}, x.heights - {g})
  }

  lemma ForgottenStep(x: Index, lost: map<string, set<string>>, left: set<string>, g: string)
    requires g in left && g in lost
    ensures Forgotten(x, lost - (left - {g})) == ForgottenGroup(Forgotten(x, lost - left), g, lost[g])
  {
    var a, b := lost - left, lost - (left - {g});
    assert forall k :: k in b <==> k in a || k == g;
    assert forall k :: k in a ==> a[k] == b[k] == lost[k];
    ForgottenMore(x, a, b, g);
  }

  ghost predicate OneMore(a: map<string, set<string>>, b: map<string, set<string>>, g: string) {
    g !in a && g in b && (forall k :: k in b <==> k in a || k == g) && (forall k :: k in a ==> a[k] == b[k])
  }

  lemma StaysMore(x: Index, a: map<string, set<string>>, b: map<string, set<string>>, g: string)
    requires OneMore(a, b, g)
    ensures Stays(Forgotten(x, a), g, b[g]) <==> Stays(x, g, b[g])
    ensures g in x.latest ==> g in Forgotten(x, a).latest && Forgotten(x, a).latest[g] == x.latest[g]
  {
  }

  lemma HeightsMore(x: Index, a: map<string, set<string>>, b: map<string, set<string>>, g: string)
    requires OneMore(a, b, g)
    ensures Forgotten(x, b).heights == if Stays(x, g, b[g]) then Forgotten(x, a).heights else Forgotten(x, a).heights - {g}
  {
  }

  lemma LatestMore(x: Index, a: map<string, set<string>>, b: map<string, set<string>>, g: string)
    requires OneMore(a, b, g)
    ensures Forgotten(x, b).latest ==
      if Stays(x, g, b[g]) then Forgotten(x, a).latest[g := x.latest[g] - b[g]] else Forgotten(x, a).latest - {g}
  {
  }

  lemma ForgottenMore(x: Index, a: map<string, set<string>>, b: map<string, set<string>>, g: string)
    requires OneMore(a, b, g)
    ensures Forgotten(x, b) == ForgottenGroup(Forgotten(x, a), g, b[g])
  {
    StaysMore(x, a, b, g);
    HeightsMore(x, a, b, g);
    LatestMore(x, a, b, g);
  }

  /** Notifying node by node is notifying them all at once. */
  lemma NotifiedTogether(r: Registry, g: string, nodes: set<string>, node: string, buildable: set<string>)
    requires g in r.infos
    ensures Notified(Notified(r, g, nodes, buildable), g, {node}, if node in buildable then {node} else {})
      == Notified(r, g, nodes + {node}, buildable)
  {
    var s, b := At(r.services, g), if node in buildable then {node} else {};
    var m, m' := nodes * buildable - s, (nodes + {node}) * buildable - s;
    var r1 := Notified(r, g, nodes, buildable);
    var k := {node} * b - At(r1.services, g);
    assert At(r1.services, g) == s + m && r1.infos[g] == r.infos[g] + m;
    assert m' == m + k;
    assert s + m + k == s + m' && r.infos[g] + m + k == r.infos[g] + m';
    if k == {} {
      assert m' == m;
    } else {
      assert k <= m' && m' != {};
      assert r1.services[g := s + m + k] == r.services[g := s + m'];
      assert r1.infos[g := r.infos[g] + m + k] == r.infos[g := r.infos[g] + m'];
    }
  }

  lemma NotifiedStep(r: Registry, g: string, nodes: set<string>, left: set<string>, node: string, buildable: set<string>)
    requires g in r.infos && left <= nodes && node in left
    ensures Notified(Notified(r, g, nodes - left, buildable), g, {node}, if node in buildable then {node} else {})
      == Notified(r, g, nodes - (left - {node}), buildable)
  {
    assert nodes - (left - {node}) == (nodes - left) + {node};
    NotifiedTogether(r, g, nodes - left, node, buildable);
  }

  lemma NotifiedEnds(r: Registry, g: string, nodes: set<string>, buildable: set<string>)
    requires g in r.infos
    ensures Notified(r, g, nodes - nodes, buildable) == r
    ensures Notified(r, g, nodes - {}, buildable) == Notified(r, g, nodes, buildable)
  {
    assert nodes - nodes == {} && nodes - {} == nodes;
  }
}
