/** Theorems about whole runs of the engine. */
module EventRuns {
  import opened EventTypes
  import opened EventTask
  import opened EventStream
  import opened EventCompletion
  import opened EventQueues
  import opened EventEngine

  // ---------- Every task object is a run of the task machine ----------

  predicate AtMostOneQuery(e: Engine, h: nat) {
    h in e.objs ==> e.objs[h].queries <= 1
  }

  /** Task object `h` never has a second height query outstanding. */
  ghost predicate OneQueryFor(w: World, acts: seq<Action>, h: nat) {
    forall n :: 0 <= n <= |acts| ==> AtMostOneQuery(Run(w, EMPTY, acts[..n]), h)
  }

  lemma OneQueryForPrefix(w: World, acts: seq<Action>, h: nat)
    requires acts != [] && OneQueryFor(w, acts, h) && h in Run(w, EMPTY, acts).objs
    ensures OneQueryFor(w, acts[..|acts| - 1], h) && Run(w, EMPTY, acts).objs[h].queries <= 1
  {
    var prev := acts[..|acts| - 1];
    forall n | 0 <= n <= |prev| ensures AtMostOneQuery(Run(w, EMPTY, prev[..n]), h) {
      assert prev[..n] == acts[..n];
    }
    assert AtMostOneQuery(Run(w, EMPTY, acts), h) by {
      assert acts[..|acts|] == acts;
    }
  }

  /** The step that engine action `a` makes on task object `h`, if any. */
  ghost function ActOn(e: Engine, a: Action, h: nat): Option<Act> {
    if !Can(e, a) then None
    else match a
      case StepTask(id, connected, up) => if e.tasks[id] == h then Some(Poll(connected, up)) else None
      case Callback(g, act) => if g == h then Some(act) else None
      case _ => None
  }

  lemma ApplyProjects(w: World, e: Engine, a: Action, h: nat)
    requires h in e.objs
    ensures var e' := Apply(w, e, a);
      && h in e'.objs
      && e'.objs[h] == (match ActOn(e, a, h) case None => e.objs[h] case Some(act) => Step(w, e.objs[h], act).task)
  {
  }

  /** A task object that is in no state of the engine yet comes into being fresh. */
  lemma ApplyCreates(w: World, e: Engine, a: Action, h: nat)
    requires h !in e.objs && h in Apply(w, e, a).objs
    ensures a.Subscribe? && Apply(w, e, a).objs[h] == NewTask(a.id, a.group, a.params)
  {
  }

  /** Whatever clients, the worker and the ledger do, each task object goes through a run of the
      task machine; all theorems about such runs hold of it. */
  lemma {:induction false} Projection(w: World, acts: seq<Action>, h: nat) returns (tacts: seq<Act>)
    requires h in Run(w, EMPTY, acts).objs
    ensures var t := Run(w, EMPTY, acts).objs[h];
      && t == Exec(w, NewTask(t.id, t.group, t.params), tacts)
      && (OneQueryFor(w, acts, h) ==> OneQuery(w, NewTask(t.id, t.group, t.params), tacts))
  {
    assert acts != [];
    var prev, a := acts[..|acts| - 1], acts[|acts| - 1];
    var e := Run(w, EMPTY, prev);
    if h !in e.objs {
      ApplyCreates(w, e, a, h);
      tacts := [];
    } else {
      tacts := Projection(w, prev, h);
      ApplyProjects(w, e, a, h);
      var t := e.objs[h];
      var t0 := NewTask(t.id, t.group, t.params);
      match ActOn(e, a, h) {
        case None =>
          if OneQueryFor(w, acts, h) {
            OneQueryForPrefix(w, acts, h);
          }
        case Some(act) =>
          StepKeepsIdentity(w, t, act);
          Exec1(w, t0, tacts, act);
          if OneQueryFor(w, acts, h) {
            OneQueryForPrefix(w, acts, h);
            OneQueryGrows(w, t0, tacts, act);
          }
          tacts := tacts + [act];
      }
    }
  }

  // ---------- The completion notice is sent once ----------

  ghost function Notices(h: seq<Event>): nat {
    if h == [] then 0
    else Notices(h[..|h| - 1]) + if h[|h| - 1].Complete? then 1 else 0
  }

  lemma NoticesGrow(h: seq<Event>, e: Event)
    ensures Notices(h + [e]) == Notices(h) + if e.Complete? then 1 else 0
  {
    assert (h + [e])[..|h|] == h;
  }

  lemma {:induction false} NoticesCount(h: seq<Event>)
    ensures Notices(h) > 0 <==> Complete in h
  {
    if h != [] {
      var prev, e := h[..|h| - 1], h[|h| - 1];
      NoticesCount(prev);
      assert h == prev + [e];
    }
  }

  ghost predicate Untouched(t: Task) {
    t == NewTask(t.id, t.group, t.params)
  }

  /** A completed task that is still in the map is on the cancel queue and not due in this tick. */
  ghost predicate SettledAt(e: Engine, h: nat) {
    Active(e, h) && Complete in e.objs[h].history ==>
      e.objs[h].id in e.cancelQueue && !e.phase.Adding? && (e.phase.Stepping? ==> e.objs[h].id !in e.phase.left)
  }

  /** A task that lost its group and is still in the map is on the cancel queue. */
  ghost predicate AbandonedAt(e: Engine, h: nat) {
    Active(e, h) && e.objs[h].abandoned ==> e.objs[h].id in e.cancelQueue
  }

  ghost predicate ObjectOk(e: Engine, h: nat)
    requires h in e.objs
  {
    && Invariant(e.objs[h])
    && Notices(e.objs[h].history) <= 1
    && (h in e.addQueue ==> Untouched(e.objs[h]))
    && SettledAt(e, h) && AbandonedAt(e, h)
  }

  ghost predicate Healthy(e: Engine) {
    forall h :: h in e.objs ==> ObjectOk(e, h)
  }

  lemma StepNotices(w: World, t: Task, a: Act)
    ensures var t' := Step(w, t, a).task;
      && (Complete in t'.history <==> Complete in t.history || (a.Poll? && a.connected && Completed(t)))
      && Notices(t'.history) == Notices(t.history) + (if a.Poll? && a.connected && Completed(t) then 1 else 0)
    ensures a.Poll? && a.connected && Completed(t) ==> Step(w, t, a).cancel
  {
    var added := StepHistory(w, t, a);
    var h: seq<Event> := t.history;
    if added == [] {
      assert Step(w, t, a).task.history == h;
    } else {
      assert h + added == h + [added[0]];
      NoticesGrow(h, added[0]);
    }
  }

  ghost predicate PhaseGoesOn(p: Phase, p': Phase) {
    p' == p || p'.Idle? || (p.Stepping? && p'.Stepping? && p'.left <= p.left)
  }

  /** A step that does not touch task `h` and takes nothing off the cancel queue keeps it well. */
  lemma ObjectFrame(e: Engine, e': Engine, h: nat)
    requires h in e.objs && h in e'.objs && e'.objs[h] == e.objs[h] && ObjectOk(e, h)
    requires Active(e', h) ==> Active(e, h)
    requires forall k :: k in e.cancelQueue ==> k in e'.cancelQueue
    requires h in e'.addQueue ==> h in e.addQueue
    requires PhaseGoesOn(e.phase, e'.phase)
    ensures ObjectOk(e', h)
  {
  }

  lemma UntouchedStays(w: World, t: Task, a: Act)
    requires Untouched(t) && !a.Poll?
    ensures Step(w, t, a).task == t
  {
  }

  lemma CallbackHealthy(w: World, e: Engine, g: nat, a: Act)
    requires Consistent(e) && Partitioned(e) && Healthy(e) && g in e.objs && !a.Poll?
    requires Fits(OnTask(w, e, g, a))
    ensures Healthy(OnTask(w, e, g, a))
  {
    var e' := OnTask(w, e, g, a);
    OnTaskConserves(w, e, g, a);
    forall h | h in e'.objs ensures ObjectOk(e', h) {
      if h != g {
        ObjectFrame(e, e', h);
      } else {
        assert ObjectOk(e, g);
        StepKeepsInvariant(w, e.objs[g], a);
        StepKeepsNotStuck(w, e.objs[g], a);
        StepKeepsIdentity(w, e.objs[g], a);
        StepNotices(w, e.objs[g], a);
        if g in e.addQueue {
          UntouchedStays(w, e.objs[g], a);
        }
      }
    }
  }

  lemma PollHealthy(w: World, e: Engine, a: Action)
    requires Consistent(e) && Partitioned(e) && Healthy(e) && a.StepTask? && Can(e, a) && Fits(Apply(w, e, a))
    ensures Healthy(Apply(w, e, a))
  {
    var e', g, act := Apply(w, e, a), e.tasks[a.id], Poll(a.connected, a.up);
    OnTaskConserves(w, e, g, act);
    assert forall h :: Active(e', h) <==> Active(OnTask(w, e, g, act), h);
    assert Active(e, g) && ObjectOk(e, g);
    NoticesCount(e.objs[g].history);
    forall h | h in e'.objs ensures ObjectOk(e', h) {
      if h != g {
        ObjectFrame(e, e', h);
      } else {
        StepKeepsInvariant(w, e.objs[g], act);
        StepKeepsNotStuck(w, e.objs[g], act);
        StepKeepsIdentity(w, e.objs[g], act);
        StepNotices(w, e.objs[g], act);
      }
    }
  }

  lemma DrainCancelHealthy(e: Engine)
    requires Consistent(e) && Partitioned(e) && Healthy(e)
    ensures Healthy(Cancelling(e).(phase := Adding))
  {
    var e' := Cancelling(e).(phase := Adding);
    CancellingConserves(e);
    forall h | h in e'.objs ensures ObjectOk(e', h) {
      assert ObjectOk(e, h);
      assert Active(e', h) ==> Active(e, h) && e.objs[h].id !in e.cancelQueue;
    }
  }

  lemma DrainAddHealthy(e: Engine)
    requires Consistent(e) && Partitioned(e) && Healthy(e) && e.phase.Adding?
    ensures Healthy(Registering(e).(phase := Stepping(Registering(e).tasks.Keys)))
  {
    var e' := Registering(e).(phase := Stepping(Registering(e).tasks.Keys));
    RegisteringConserves(e);
    forall h | h in e'.objs ensures ObjectOk(e', h) {
      assert ObjectOk(e, h);
    }
  }

  lemma SubscribeHealthy(w: World, e: Engine, a: Action)
    requires Consistent(e) && Partitioned(e) && Healthy(e) && a.Subscribe? && Can(e, a) && Fits(Apply(w, e, a))
    ensures Healthy(Apply(w, e, a))
  {
    var e' := Apply(w, e, a);
    SubscribeConserves(w, e, a);
    forall h | h in e'.objs ensures ObjectOk(e', h) {
      if h != a.handle {
        ObjectFrame(e, e', h);
      } else {
        NewTaskInvariant(a.id, a.group, a.params);
      }
    }
  }

  lemma ApplyHealthy(w: World, e: Engine, a: Action)
    requires Consistent(e) && Partitioned(e) && Healthy(e) && Fits(Apply(w, e, a))
    ensures Healthy(Apply(w, e, a))
  {
    if Can(e, a) {
      match a
      case Subscribe(_, _, _, _) => SubscribeHealthy(w, e, a);
      case Unsubscribe(id) =>
        forall h | h in e.objs ensures ObjectOk(WithCancel(e, id), h) { ObjectFrame(e, WithCancel(e, id), h); }
      case DrainCancel => DrainCancelHealthy(e);
      case DrainAdd => DrainAddHealthy(e);
      case StepTask(_, _, _) => PollHealthy(w, e, a);
      case EndTick =>
        forall h | h in e.objs ensures ObjectOk(e.(phase := Idle), h) { ObjectFrame(e, e.(phase := Idle), h); }
      case Callback(h, act) => CallbackHealthy(w, e, h, act);
    }
  }

  lemma {:induction false} RunHealthy(w: World, acts: seq<Action>)
    requires AlwaysFits(w, EMPTY, acts)
    ensures Healthy(Run(w, EMPTY, acts))
  {
    if acts != [] {
      var prev := acts[..|acts| - 1];
      FitsPrefix(w, EMPTY, acts);
      Conservation(w, prev);
      RunHealthy(w, prev);
      ApplyHealthy(w, Run(w, EMPTY, prev), acts[|acts| - 1]);
    }
  }

  /** In every run, a task object's client gets at most one completion notice. */
  lemma CompletionOnce(w: World, acts: seq<Action>, h: nat)
    requires AlwaysFits(w, EMPTY, acts) && h in Run(w, EMPTY, acts).objs
    ensures Notices(Run(w, EMPTY, acts).objs[h].history) <= 1
  {
    RunHealthy(w, acts);
    assert ObjectOk(Run(w, EMPTY, acts), h);
  }

  /** No stuck task: in every reachable state, a task of the map that is marked busy has a live window
      or stands on the cancel queue; right after the queue is drained it has a live window. */
  lemma NoStuckTask(w: World, acts: seq<Action>, h: nat)
    requires AlwaysFits(w, EMPTY, acts)
    requires var e := Run(w, EMPTY, acts); Active(e, h) && e.objs[h].work
    ensures var e := Run(w, EMPTY, acts);
      e.objs[h].windows != [] || e.objs[h].id in e.cancelQueue
    ensures acts != [] && acts[|acts| - 1].DrainCancel? && Can(Run(w, EMPTY, acts[..|acts| - 1]), DrainCancel) ==>
      Run(w, EMPTY, acts).objs[h].windows != []
  {
    RunHealthy(w, acts);
    assert ObjectOk(Run(w, EMPTY, acts), h);
    if acts != [] && acts[|acts| - 1].DrainCancel? && Can(Run(w, EMPTY, acts[..|acts| - 1]), DrainCancel) {
      FitsPrefix(w, EMPTY, acts);
      Conservation(w, acts[..|acts| - 1]);
      CancellingConserves(Run(w, EMPTY, acts[..|acts| - 1]));
    }
  }

  // ---------- What the client of a task object has received ----------

  /** Delivery: in every engine run in which task object `h` has at most one height query outstanding,
      its stream is the filter of the consecutive blocks start..cursor-1. */
  lemma Delivery(w: World, acts: seq<Action>, h: nat)
    requires h in Run(w, EMPTY, acts).objs && OneQueryFor(w, acts, h)
    requires Run(w, EMPTY, acts).objs[h].cursor >= 0
    ensures var t := Run(w, EMPTY, acts).objs[h];
      var bs := Blocks(t.history);
      && bs != [] && bs[0] <= t.cursor && bs == Range(bs[0], t.cursor)
      && (t.params.fromBlock > 0 ==> bs[0] == t.params.fromBlock)
      && StreamsFilter(w, t, bs[0], t.cursor)
  {
    var t := Run(w, EMPTY, acts).objs[h];
    var tacts := Projection(w, acts, h);
    StreamRefinement(w, t.id, t.group, t.params, tacts);
  }

  /** No gaps under any interleaving: whatever the engine does, a task object with a positive first
      block has matched every block from it up to its cursor and to each of its live windows. */
  lemma NoGapsInEngine(w: World, acts: seq<Action>, h: nat)
    requires h in Run(w, EMPTY, acts).objs && Run(w, EMPTY, acts).objs[h].params.fromBlock > 0
    ensures var t := Run(w, EMPTY, acts).objs[h];
      && NoGaps(t)
      && (forall x :: t.params.fromBlock <= x < t.cursor ==> x in Blocks(t.history))
      && (forall v, x :: v in t.windows && t.params.fromBlock <= x < v.next ==> x in Blocks(t.history))
      && (forall b :: b in Blocks(t.history) ==> t.params.fromBlock <= b < t.cursor)
  {
    var t := Run(w, EMPTY, acts).objs[h];
    var tacts := Projection(w, acts, h);
    NoGapsAnyInterleaving(w, t.id, t.group, t.params, tacts);
  }

  /** Completion soundness under any interleaving: whatever the engine does, a completion notice of a
      task object with a positive first block comes after all blocks of its range were matched. */
  lemma CompletionSoundInEngine(w: World, acts: seq<Action>, h: nat, k: nat)
    requires h in Run(w, EMPTY, acts).objs
    requires var t := Run(w, EMPTY, acts).objs[h];
      t.params.fromBlock > 0 && k < |t.history| && t.history[k].Complete?
    ensures var t := Run(w, EMPTY, acts).objs[h];
      && (forall b :: t.params.fromBlock <= b <= t.params.toBlock ==> b in Blocks(t.history[..k]))
      && (t.params.toBlock > 0 ==> t.params.fromBlock <= t.params.toBlock)
  {
    var t := Run(w, EMPTY, acts).objs[h];
    var tacts := Projection(w, acts, h);
    CompletionSound(w, t.id, t.group, t.params, tacts, k);
  }

  /** With one query at a time, a task object pushes nothing after its notice, unless it is one that
      overruns into a block with something to push. */
  lemma PushesEndInEngine(w: World, acts: seq<Action>, h: nat)
    requires h in Run(w, EMPTY, acts).objs && OneQueryFor(w, acts, h)
    requires var t := Run(w, EMPTY, acts).objs[h]; !PushesLate(w, t.group, t.params)
    ensures NoPushAfterNotice(Run(w, EMPTY, acts).objs[h].history)
  {
    var t := Run(w, EMPTY, acts).objs[h];
    var tacts := Projection(w, acts, h);
    PushesEndExactly(w, t.id, t.group, t.params);
  }

  /** Blocks from..to were matched, each once and in order, and the stream is their plain filter
      exactly when no block's count wraps. */
  ghost predicate RangeDelivered(w: World, t: Task)
    requires t.params.fromBlock <= t.params.toBlock
  {
    var p := t.params;
    && Blocks(t.history) == Range(p.fromBlock, p.toBlock + 1)
    && StreamsFilter(w, t, p.fromBlock, p.toBlock + 1)
  }

  lemma CompletedCursor(w: World, id: string, group: string, p: Params, acts: seq<Act>)
    requires 0 < p.fromBlock <= p.toBlock && Complete in Exec(w, NewTask(id, group, p), acts).history
    ensures Exec(w, NewTask(id, group, p), acts).cursor == p.toBlock + 1
  {
    NewTaskInvariant(id, group, p);
    RunKeepsInvariant(w, NewTask(id, group, p), acts);
    NeverOverruns(w, id, group, p, acts);
  }

  lemma WholeRange(w: World, t: Task)
    requires 0 < t.params.fromBlock <= t.params.toBlock && t.cursor == t.params.toBlock + 1
    requires var bs := Blocks(t.history);
      bs != [] && bs[0] == t.params.fromBlock && bs == Range(bs[0], t.cursor) && StreamsFilter(w, t, bs[0], t.cursor)
    ensures RangeDelivered(w, t)
  {
  }

  lemma CompletedRange(w: World, id: string, group: string, p: Params, acts: seq<Act>)
    requires 0 < p.fromBlock <= p.toBlock && OneQuery(w, NewTask(id, group, p), acts)
    requires Exec(w, NewTask(id, group, p), acts).cursor == p.toBlock + 1
    ensures var t := Exec(w, NewTask(id, group, p), acts); t.params == p && RangeDelivered(w, t)
  {
    var t := Exec(w, NewTask(id, group, p), acts);
    assert t.params == p by {
      StreamFollowsBlocks(w, id, group, p, acts);
    }
    StreamRefinement(w, id, group, p, acts);
    WholeRange(w, t);
  }

  lemma QuietRun(w: World, id: string, group: string, p: Params, acts: seq<Act>)
    requires p.toBlock > 0 && OneQuery(w, NewTask(id, group, p), acts)
    ensures Quiet(Exec(w, NewTask(id, group, p), acts).history)
  {
    NewTaskInvariant(id, group, p);
    RunIsQuiet(w, NewTask(id, group, p), acts);
  }

  /** Completion, complete: a client that holds the completion notice of 0 < from <= to has received
      blocks from..to, each once and in order, and after them the notice, once and last. */
  lemma CompletionExact(w: World, acts: seq<Action>, h: nat)
    requires AlwaysFits(w, EMPTY, acts) && h in Run(w, EMPTY, acts).objs && OneQueryFor(w, acts, h)
    requires var t := Run(w, EMPTY, acts).objs[h];
      0 < t.params.fromBlock <= t.params.toBlock && Complete in t.history
    ensures var t := Run(w, EMPTY, acts).objs[h];
      && RangeDelivered(w, t)
      && t.history[|t.history| - 1] == Complete
      && (forall k :: 0 <= k < |t.history| - 1 ==> t.history[k].Matched?)
  {
    var t := Run(w, EMPTY, acts).objs[h];
    var tacts := Projection(w, acts, h);
    CompletedCursor(w, t.id, t.group, t.params, tacts);
    CompletedRange(w, t.id, t.group, t.params, tacts);
    QuietRun(w, t.id, t.group, t.params, tacts);
    CompletionOnce(w, acts, h);
    NoticeIsLast(t.history);
  }

  lemma {:induction false} NoticeIsLast(h: seq<Event>)
    requires Complete in h && Quiet(h) && Notices(h) <= 1
    ensures h[|h| - 1] == Complete && forall k :: 0 <= k < |h| - 1 ==> h[k].Matched?
  {
    var n := |h| - 1;
    var i :| 0 <= i < |h| && h[i] == Complete;
    assert h[n].Complete?;
    NoticesCount(h[..n]);
    forall k | 0 <= k < n ensures h[k].Matched? {
      assert h[k] == h[..n][k] && h[..n][k] in h[..n];
    }
  }

  // ---------- What a tick does to the task map ----------

  ghost predicate Pending(e: Engine, id: string) {
    exists h :: h in e.addQueue && h in e.objs && e.objs[h].id == id
  }

  lemma PendingIds(e: Engine, id: string)
    requires Partitioned(e)
    ensures Pending(e, id) <==> exists h :: h in e.addQueue && IdOf(e.objs)(h) == id
  {
    if h :| h in e.addQueue && IdOf(e.objs)(h) == id {
      assert h in e.objs;
    }
  }

  /** What can happen between the two drains of a tick leaves task map and phase alone. */
  lemma {:induction false} BetweenDrains(w: World, e: Engine, mid: seq<Action>)
    requires e.phase.Adding? && DrainAdd !in mid
    ensures var e' := Run(w, e, mid); e'.phase.Adding? && e'.tasks == e.tasks
  {
    if mid != [] {
      BetweenDrains(w, e, mid[..|mid| - 1]);
      assert mid[|mid| - 1] in mid;
    }
  }

  /** The engine when the tick that starts after `acts` drains the add queue, `mid` being what happens
      after it drained the cancel queue. */
  ghost function AtSecondDrain(w: World, acts: seq<Action>, mid: seq<Action>): Engine {
    Run(w, EMPTY, acts + [DrainCancel] + mid)
  }

  lemma SecondDrain(w: World, acts: seq<Action>, mid: seq<Action>)
    requires AlwaysFits(w, EMPTY, acts + [DrainCancel] + mid)
    requires Run(w, EMPTY, acts).phase.Idle? && DrainAdd !in mid
    ensures var e, e2 := Run(w, EMPTY, acts), AtSecondDrain(w, acts, mid);
      && Consistent(e2) && Partitioned(e2)
      && e2.phase.Adding? && e2.tasks == e.tasks - SetOf(e.cancelQueue)
  {
    FitsBefore(w, EMPTY, acts + [DrainCancel], mid);
    FitsBefore(w, EMPTY, acts, [DrainCancel]);
    Conservation(w, acts);
    Conservation(w, acts + [DrainCancel] + mid);
    CancellingConserves(Run(w, EMPTY, acts));
    Run1(w, EMPTY, acts, DrainCancel);
    RunConcat(w, EMPTY, acts + [DrainCancel], mid);
    BetweenDrains(w, Run(w, EMPTY, acts + [DrainCancel]), mid);
  }

  /** The task map after a tick has drained both queues. */
  lemma TickMap(w: World, e2: Engine)
    requires Consistent(e2) && e2.phase.Adding?
    ensures Apply(w, e2, DrainAdd).tasks == Registered(e2.tasks, e2.addQueue, IdOf(e2.objs))
  {
  }

  /** A tick, whatever happens between its two lock regions, turns the task map into the map it found
      minus the cancels of its first drain, plus the adds of its second, the first of equal ids
      winning. */
  lemma BatchRefinement(w: World, acts: seq<Action>, mid: seq<Action>, id: string)
    requires AlwaysFits(w, EMPTY, acts + [DrainCancel] + mid)
    requires Run(w, EMPTY, acts).phase.Idle? && DrainAdd !in mid
    ensures var e, e2 := Run(w, EMPTY, acts), AtSecondDrain(w, acts, mid);
      var m := Apply(w, e2, DrainAdd).tasks;
      var kept := id in e.tasks && id !in e.cancelQueue;
      && m == Registered(e.tasks - SetOf(e.cancelQueue), e2.addQueue, IdOf(e2.objs))
      && (id in m <==> kept || Pending(e2, id))
      && (kept ==> m[id] == e.tasks[id])
      && (id in m && !kept ==> TakenFromQueue(m, e2.addQueue, IdOf(e2.objs), id))
  {
    SecondDrain(w, acts, mid);
    var e2 := AtSecondDrain(w, acts, mid);
    TickMap(w, e2);
    PendingIds(e2, id);
    RegisteredIs(e2.tasks, e2.addQueue, IdOf(e2.objs));
    RegisteredKeys(e2.tasks, e2.addQueue, IdOf(e2.objs));
  }

  /** An unsubscription that a tick finds takes effect in it exactly when no subscription with its id
      is waiting when the tick comes to its second drain: cancels run before adds. */
  lemma UnsubscribeTakesEffect(w: World, acts: seq<Action>, mid: seq<Action>, id: string)
    requires AlwaysFits(w, EMPTY, acts + [DrainCancel] + mid)
    requires Run(w, EMPTY, acts).phase.Idle? && DrainAdd !in mid && id in Run(w, EMPTY, acts).cancelQueue
    ensures id !in Apply(w, AtSecondDrain(w, acts, mid), DrainAdd).tasks <==> !Pending(AtSecondDrain(w, acts, mid), id)
  {
    BatchRefinement(w, acts, mid, id);
  }

  lemma SubscribedThenCancelled(w: World, id: string, group: string, p: Params)
    ensures Run(w, EMPTY, [Subscribe(0, id, group, p), Unsubscribe(id)]) ==
      EMPTY.(objs := map[0 := NewTask(id, group, p)], addQueue := [0], addCount := 1, cancelQueue := [id], cancelCount := 1)
  {
    var s, u := Subscribe(0, id, group, p), Unsubscribe(id);
    Run1(w, EMPTY, [], s);
    Run1(w, EMPTY, [s], u);
    assert [] + [s] == [s] && [s] + [u] == [s, u];
  }

  /** Subscribing and unsubscribing before the tick leaves the subscription active, the
      unsubscription being spent on nothing. */
  lemma UnsubscribeLost(w: World, id: string, group: string, p: Params)
    ensures var e := Run(w, EMPTY, [Subscribe(0, id, group, p), Unsubscribe(id)]);
      var e' := Apply(w, Apply(w, e, DrainCancel), DrainAdd);
      id in e.cancelQueue && Active(e', 0) && e'.cancelQueue == []
  {
    SubscribedThenCancelled(w, id, group, p);
    var e := Run(w, EMPTY, [Subscribe(0, id, group, p), Unsubscribe(id)]);
    var e1 := Apply(w, e, DrainCancel);
    PurgedIs(e.tasks, [id]);
    assert e1 == e.(phase := Adding, cancelQueue := [], cancelCount := 0);
    RegisteredIs(e1.tasks, [0], IdOf(e1.objs));
    assert 0 in [0];
    var m := Registered(e1.tasks, [0], IdOf(e1.objs));
    assert IdOf(e1.objs)(0) == id && id in m && TakenFromQueue(m, [0], IdOf(e1.objs), id);
  }
}
