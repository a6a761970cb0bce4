/** From the client's request to the client's stream. */
module EventEndToEnd {
  import opened EventTypes
  import opened EventMatcher
  import opened EventTask
  import opened EventStream
  import opened EventEngine
  import opened EventRuns
  import opened EventParsing
  import opened EventRequest

  /** `onRecvSubscribeEvent`: a request that cannot be parsed, or whose group is not known, is refused;
      for any other a task object `handle` is made and submitted. */
  function OnRecvSubscribeEvent(j: Json, handle: nat, known: string -> bool): seq<Action> {
    match ParseRequest(j)
    case None => []
    case Some(r) => if known(r.group) then [Subscribe(handle, r.id, r.group, r.params)] else []
  }

  /** The request is one that can be read and whose group is known. */
  ghost predicate Acceptable(j: Json, known: string -> bool) {
    exists r :: Says(j, r) && known(r.group)
  }

  /** In every run, receiving a request makes the task object exactly if the request can be read and its
      group is known: then a fresh one with what the request says, which joins the add queue while nothing
      else changes; otherwise nothing changes at all. */
  lemma AcceptedExactly(w: World, pre: seq<Action>, j: Json, h: nat, known: string -> bool)
    requires h !in Run(w, EMPTY, pre).objs
    ensures var e, e' := Run(w, EMPTY, pre), Run(w, EMPTY, pre + OnRecvSubscribeEvent(j, h, known));
      && (h in e'.objs <==> Acceptable(j, known))
      && (!Acceptable(j, known) ==> e' == e)
      && (Acceptable(j, known) ==>
            && e'.objs.Keys == e.objs.Keys + {h} && (forall g :: g in e.objs ==> e'.objs[g] == e.objs[g])
            && e'.addQueue == e.addQueue + [h]
            && e'.tasks == e.tasks && e'.cancelQueue == e.cancelQueue && e'.phase == e.phase
            && var t := e'.objs[h];
            && Says(j, Request(t.id, t.group, t.params)) && known(t.group)
            && t.cursor == -1 && !t.work && t.queries == 0 && t.windows == [] && t.history == [])
  {
    hide Says, ParseRequest;
    ParsingAlwaysExact(j);
    if ParseRequest(j).Some? && known(ParseRequest(j).value.group) {
      var r := ParseRequest(j).value;
      assert Says(j, r);
      Run1(w, EMPTY, pre, Subscribe(h, r.id, r.group, r.params));
    } else {
      assert pre + [] == pre;
    }
  }

  /** Filters with the same meaning select the same entries of a range. */
  lemma {:induction false} SameFiltered(w: World, group: string, p: Params, q: Params, a: int, b: int)
    requires SameMeaning(p, q)
    ensures Filtered(w, group, p, a, b) == Filtered(w, group, q, a, b)
    decreases b - a
  {
    if a < b {
      SameFiltered(w, group, p, q, a, b - 1);
      SameMeaningSameEntries(p, q, w.chain(group, b - 1));
    }
  }

  /** The stream is the plain filter by `p` exactly when no block's count wraps, and then so by every
      filter with the same meaning. */
  lemma SameStreams(w: World, t: Task, p: Params, a: int, b: int)
    requires StreamsFilter(w, t, a, b) && SameMeaning(p, t.params)
    ensures Stream(t.history) == Filtered(w, t.group, p, a, b) <==> AllCountable(w, t.group, p, a, b)
  {
    SameFiltered(w, t.group, p, t.params, a, b);
    forall x | a <= x < b ensures Countable(p, w.chain(t.group, x)) <==> Countable(t.params, w.chain(t.group, x)) {
      SameMeaningSameEntries(p, t.params, w.chain(t.group, x));
    }
  }

  /** A task object keeps its id, group and filter for ever. */
  lemma {:induction false} IdentityLasts(w: World, e: Engine, acts: seq<Action>, h: nat)
    requires h in e.objs
    ensures var e' := Run(w, e, acts);
      && h in e'.objs
      && e'.objs[h].id == e.objs[h].id && e'.objs[h].group == e.objs[h].group && e'.objs[h].params == e.objs[h].params
  {
    if acts != [] {
      var prev, a := acts[..|acts| - 1], acts[|acts| - 1];
      IdentityLasts(w, e, prev, h);
      IdentityKept(w, Run(w, e, prev), a, h);
    }
  }

  lemma IdentityKept(w: World, e: Engine, a: Action, h: nat)
    requires h in e.objs
    ensures var e' := Apply(w, e, a);
      && h in e'.objs
      && e'.objs[h].id == e.objs[h].id && e'.objs[h].group == e.objs[h].group && e'.objs[h].params == e.objs[h].params
  {
    ApplyProjects(w, e, a, h);
    match ActOn(e, a, h) {
      case None =>
      case Some(act) => StepKeepsIdentity(w, e.objs[h], act);
    }
  }

  /** Whatever happened before and happens after, an accepted request has a task object with its id,
      group and filter. */
  lemma RequestIsSubmitted(w: World, pre: seq<Action>, j: Json, h: nat, known: string -> bool, post: seq<Action>)
    requires ParseRequest(j).Some? && known(ParseRequest(j).value.group) && h !in Run(w, EMPTY, pre).objs
    ensures var e, r := Run(w, EMPTY, pre + OnRecvSubscribeEvent(j, h, known) + post), ParseRequest(j).value;
      h in e.objs && r == Request(e.objs[h].id, e.objs[h].group, e.objs[h].params)
  {
    var r := ParseRequest(j).value;
    var s := Subscribe(h, r.id, r.group, r.params);
    assert OnRecvSubscribeEvent(j, h, known) == [s];
    Run1(w, EMPTY, pre, s);
    RunConcat(w, EMPTY, pre + [s], post);
    IdentityLasts(w, Run(w, EMPTY, pre + [s]), post, h);
  }

  /** End to end: a client prints its request `r` and sends it; the engine, amid any other activity
      before and after, parses it, finds the group and runs a task object for it, with at most one
      height query outstanding. What it has delivered is the plain filter, by the client's own filter
      `r.params`, of consecutive blocks up to the cursor, from the printed first block if that is
      positive; this exactly when no block's count wraps. */
  lemma RequestToStream(w: World, r: Request, cursor: int, j: Json, pre: seq<Action>, h: nat,
                       known: string -> bool, post: seq<Action>)
    requires Printed(r, cursor, j) && IsInt64(PrintedFrom(r.params, cursor)) && IsInt64(r.params.toBlock)
    requires NormalTables(r.params) || Garbled(r.params)
    requires known(r.group) && h !in Run(w, EMPTY, pre).objs
    requires OneQueryFor(w, pre + OnRecvSubscribeEvent(j, h, known) + post, h)
    ensures var e := Run(w, EMPTY, pre + OnRecvSubscribeEvent(j, h, known) + post);
      && h in e.objs && e.objs[h].id == r.id
      && var t := e.objs[h];
      && (t.cursor >= 0 ==>
          var bs := Blocks(t.history);
          && bs != [] && bs[0] <= t.cursor && bs == Range(bs[0], t.cursor)
          && (PrintedFrom(r.params, cursor) > 0 ==> bs[0] == PrintedFrom(r.params, cursor))
          && (Stream(t.history) == Filtered(w, r.group, r.params, bs[0], t.cursor) <==>
              AllCountable(w, r.group, r.params, bs[0], t.cursor)))
  {
    RoundTrip(r, cursor, j);
    MeaningSurvives(r, cursor, j);
    var acts := pre + OnRecvSubscribeEvent(j, h, known) + post;
    RequestIsSubmitted(w, pre, j, h, known, post);
    var t := Run(w, EMPTY, acts).objs[h];
    if t.cursor >= 0 {
      Delivery(w, acts, h);
      SameStreams(w, t, r.params, Blocks(t.history)[0], t.cursor);
    }
  }
}
