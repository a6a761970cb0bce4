/** The index of the nodes that stand at the highest block of each group. */
module GroupHeights {

  /** `heights` has no entry for a group whose highest report is block 0. */
  datatype Index = Index(latest: map<string, set<string>>, heights: map<string, int>)

  const NO_INDEX: Index := Index(map[], map[])

  function LatestOf(x: Index, g: string): set<string> {
    if g in x.latest then x.latest[g] else {}
  }

  function HeightOf(x: Index, g: string): int {
    if g in x.heights then x.heights[g] else 0
  }

  /** `updateGroupBlockInfo`. */
  function Reported(x: Index, g: string, node: string, height: int): Index {
    if g in x.heights && x.heights[g] > height then x
    else if HeightOf(x, g) < height then Index(x.latest[g := {node}], x.heights[g := height])
    else Index(x.latest[g := LatestOf(x, g) + {node}], x.heights)
  }

  /** Whether a group named in a removal stays in the index. */
  predicate Stays(x: Index, g: string, nodes: set<string>) {
    g in x.latest && g in x.heights && x.latest[g] - nodes != {}
  }

  /** `removeGroupBlockInfo`: a group that is left without a node, or whose height was never
      recorded, is forgotten altogether. */
  function Forgotten(x: Index, lost: map<string, set<string>>): Index {
    Index(map g | g in x.latest && (g in lost ==> Stays(x, g, lost[g])) :: if g in lost then x.latest[g] - lost[g] else x.latest[g],
          map g | g in x.heights && (g in lost ==> Stays(x, g, lost[g])) :: x.heights[g])
  }

  datatype Event = Report(group: string, node: string, height: int) | Forget(lost: map<string, set<string>>)

  function Updated(x: Index, e: Event): Index {
    match e
    case Report(g, node, height) => Reported(x, g, node, height)
    case Forget(lost) => Forgotten(x, lost)
  }

  function IndexAfter(h: seq<Event>): Index {
    if h == [] then NO_INDEX else Updated(IndexAfter(h[..|h| - 1]), h[|h| - 1])
  }

  // ---------- The reference: what the history says ----------

  /** A negative report counts as one of block 0. */
  function Counted(height: int): nat { if height < 0 then 0 else height }

  /** What happened to one group since its last reset. */
  datatype Item = Seen(node: string, height: nat) | Gone(nodes: set<string>)

  function Highest(s: seq<Item>): nat {
    if s == [] then 0
    else
      var m, i := Highest(s[..|s| - 1]), s[|s| - 1];
      if i.Seen? && i.height > m then i.height else m
  }

  /** The node reported this height and was not removed afterwards. */
  ghost predicate StandsAt(s: seq<Item>, node: string, height: nat) {
    exists i :: 0 <= i < |s| && s[i] == Seen(node, height) && Unremoved(s, node, i)
  }

  ghost predicate Unremoved(s: seq<Item>, node: string, i: nat) {
    forall j :: i < j < |s| ==> !(s[j].Gone? && node in s[j].nodes)
  }

  function Names(s: seq<Item>): set<string> {
    set i | 0 <= i < |s| && s[i].Seen? :: s[i].node
  }

  /** The nodes that reported the highest height and were not removed afterwards. */
  ghost function Top(s: seq<Item>): set<string> {
    set node | node in Names(s) && StandsAt(s, node, Highest(s))
  }

  /** The history of one group since its last reset. A removal resets the group when no node is left
      at the top, or when the highest report was block 0. */
  ghost function Since(h: seq<Event>, g: string): seq<Item> {
    if h == [] then []
    else
      var s, e := Since(h[..|h| - 1], g), h[|h| - 1];
      match e
      case Report(g', node, height) => if g' == g then s + [Seen(node, Counted(height))] else s
      case Forget(lost) =>
        if g !in lost then s
        else if Highest(s) == 0 || Top(s + [Gone(lost[g])]) == {} then []
        else s + [Gone(lost[g])]
  }

  lemma {:induction false} HighestIsMax(s: seq<Item>)
    ensures forall i :: 0 <= i < |s| && s[i].Seen? ==> s[i].height <= Highest(s)
    ensures Highest(s) > 0 ==> exists i :: 0 <= i < |s| && s[i].Seen? && s[i].height == Highest(s)
  {
    if s != [] {
      var prev := s[..|s| - 1];
      HighestIsMax(prev);
      assert forall i :: 0 <= i < |prev| ==> s[i] == prev[i];
      if Highest(s) > 0 && Highest(s) == Highest(prev) {
        var i :| 0 <= i < |prev| && prev[i].Seen? && prev[i].height == Highest(prev);
        assert s[i].height == Highest(s);
      }
    }
  }

  lemma StandsGrows(s: seq<Item>, x: Item, node: string, height: nat)
    ensures StandsAt(s + [x], node, height) <==>
      x == Seen(node, height) || (StandsAt(s, node, height) && !(x.Gone? && node in x.nodes))
  {
    var t := s + [x];
    if x == Seen(node, height) {
      assert t[|s|] == Seen(node, height) && Unremoved(t, node, |s|);
    }
    if i :| 0 <= i < |s| && s[i] == Seen(node, height) && Unremoved(s, node, i) && !(x.Gone? && node in x.nodes) {
      assert t[i] == s[i] && Unremoved(t, node, i);
    }
    if StandsAt(t, node, height) && x != Seen(node, height) {
      var i :| 0 <= i < |t| && t[i] == Seen(node, height) && Unremoved(t, node, i);
      assert t[|s|] == x && s[i] == t[i];
      forall j | i < j < |s| ensures !(s[j].Gone? && node in s[j].nodes) {
        assert s[j] == t[j];
      }
      assert Unremoved(s, node, i);
    }
  }

  lemma TopIs(s: seq<Item>, node: string)
    ensures node in Top(s) <==> StandsAt(s, node, Highest(s))
  {
    if StandsAt(s, node, Highest(s)) {
      var i :| 0 <= i < |s| && s[i] == Seen(node, Highest(s)) && Unremoved(s, node, i);
      assert s[i].node in Names(s);
    }
  }

  lemma HighestGrows(s: seq<Item>, x: Item)
    ensures Highest(s + [x]) == if x.Seen? && x.height > Highest(s) then x.height else Highest(s)
  {
    assert (s + [x])[..|s|] == s;
  }

  lemma NobodyAbove(s: seq<Item>, node: string, height: nat)
    requires height > Highest(s)
    ensures !StandsAt(s, node, height)
  {
    HighestIsMax(s);
  }

  lemma TopGrows(s: seq<Item>, x: Item, n: string)
    requires x.Seen?
    ensures n in Top(s + [x]) <==>
      (n == x.node && x.height >= Highest(s)) || (n in Top(s) && x.height <= Highest(s))
  {
    HighestGrows(s, x);
    TopIs(s + [x], n);
    TopIs(s, n);
    StandsGrows(s, x, n, Highest(s + [x]));
    if x.height > Highest(s) {
      NobodyAbove(s, n, x.height);
    }
  }

  /** A new highest report stands alone, an equal one joins, a lower one is ignored. */
  lemma TopAfterSeen(s: seq<Item>, node: string, height: nat)
    ensures Top(s + [Seen(node, height)]) ==
      if height > Highest(s) then {node} else if height == Highest(s) then Top(s) + {node} else Top(s)
  {
    forall n ensures n in Top(s + [Seen(node, height)]) <==>
      (n == node && height >= Highest(s)) || (n in Top(s) && height <= Highest(s))
    {
      TopGrows(s, Seen(node, height), n);
    }
  }

  lemma TopAfterGone(s: seq<Item>, nodes: set<string>)
    ensures Top(s + [Gone(nodes)]) == Top(s) - nodes && Highest(s + [Gone(nodes)]) == Highest(s)
  {
    HighestGrows(s, Gone(nodes));
    forall n ensures n in Top(s + [Gone(nodes)]) <==> n in Top(s) - nodes {
      TopIs(s + [Gone(nodes)], n);
      TopIs(s, n);
      StandsGrows(s, Gone(nodes), n, Highest(s));
    }
  }

  /** The index holds for group `g` exactly what the items `s` say. */
  ghost predicate Agrees(x: Index, g: string, s: seq<Item>) {
    && LatestOf(x, g) == Top(s) && (g in x.latest <==> s != []) && (s != [] ==> Top(s) != {})
    && HeightOf(x, g) == Highest(s) && (g in x.heights <==> Highest(s) > 0)
  }

  lemma ReportAgrees(x: Index, g: string, s: seq<Item>, node: string, height: int)
    requires Agrees(x, g, s)
    ensures Agrees(Reported(x, g, node, height), g, s + [Seen(node, Counted(height))])
  {
    TopAfterSeen(s, node, Counted(height));
    HighestGrows(s, Seen(node, Counted(height)));
    assert Highest([]) == 0;
  }

  lemma ForgetAgrees(x: Index, g: string, s: seq<Item>, lost: map<string, set<string>>)
    requires Agrees(x, g, s) && g in lost
    ensures var t := s + [Gone(lost[g])];
      Agrees(Forgotten(x, lost), g, if Highest(s) == 0 || Top(t) == {} then [] else t)
  {
    TopAfterGone(s, lost[g]);
    assert Top([]) == {};
  }

  /** The index refines its history: after any run of reports and removals, the recorded height of
      every group is the maximum reported since the group's last reset, and its latest nodes are
      exactly those that reported that height since and were not removed afterwards. */
  lemma {:induction false} IndexRefinesHistory(h: seq<Event>, g: string)
    ensures Agrees(IndexAfter(h), g, Since(h, g))
  {
    if h == [] {
      assert Top([]) == {};
    } else {
      var prev, e := h[..|h| - 1], h[|h| - 1];
      IndexRefinesHistory(prev, g);
      match e
      case Report(g', node, height) =>
        if g' == g {
          ReportAgrees(IndexAfter(prev), g, Since(prev, g), node, height);
        }
      case Forget(lost) =>
        if g in lost {
          ForgetAgrees(IndexAfter(prev), g, Since(prev, g), lost);
        }
    }
  }

  /** The recorded height of a group never falls, except that a reset takes it to nothing. */
  lemma HeightFallsOnlyByReset(h: seq<Event>, e: Event, g: string)
    ensures var before, after := HeightOf(IndexAfter(h), g), HeightOf(IndexAfter(h + [e]), g);
      after < before ==> e.Forget? && g in e.lost && Since(h + [e], g) == [] && after == 0
  {
    var h' := h + [e];
    assert h'[..|h|] == h;
    IndexRefinesHistory(h, g);
    IndexRefinesHistory(h', g);
    var s := Since(h, g);
    match e
    case Report(_, node, height) => HighestGrows(s, Seen(node, Counted(height)));
    case Forget(lost) => if g in lost { HighestGrows(s, Gone(lost[g])); }
  }
}
