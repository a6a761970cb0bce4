/** What polls, replies and cancellations do, told by the fields they change and by whole runs. */
module EventSteps {
  import opened EventTypes
  import opened EventTask
  import opened EventStream
  import opened EventQueues
  import opened EventEngine

  // ---------- A poll ----------

  /** The cursor has passed the last block asked for. */
  predicate PastEnd(t: Task) { 0 <= t.params.toBlock < t.cursor }

  /** The worker has yet to poll, in this tick, the task `h` filed under `id`. */
  ghost predicate PollDue(e: Engine, id: string, h: nat) {
    && e.phase.Stepping? && id in e.phase.left
    && id in e.tasks && e.tasks[id] == h && h in e.objs && e.objs[h].id == id
  }

  /** Nothing but task object `h` and the cancel queue has changed. */
  ghost predicate OnlyTask(e: Engine, e': Engine, h: nat) {
    && e'.objs.Keys == e.objs.Keys && (forall g :: g in e.objs && g != h ==> e'.objs[g] == e.objs[g])
    && e'.tasks == e.tasks && e'.addQueue == e.addQueue && e'.addCount == e.addCount
    && e'.rejected == e.rejected && e'.cancelled == e.cancelled
  }

  /** The id of the task was put on the cancel queue if `asked`, and nothing else was. */
  ghost predicate Queued(e: Engine, e': Engine, id: string, asked: bool) {
    e'.cancelQueue == e.cancelQueue + if asked then [id] else []
  }

  /** A poll cancels the task if and only if the session is gone, or the range is finished, or the task
      is not busy and its group is gone. It sends the notice exactly if the session is there and the range
      finished, and asks for a height exactly if there is a session, a group and work to begin. */
  lemma PollExact(w: World, e: Engine, id: string, h: nat, connected: bool, up: bool)
    requires PollDue(e, id, h)
    ensures var e' := Apply(w, e, StepTask(id, connected, up));
      var t := e.objs[h];
      && OnlyTask(e, e', h) && e'.phase == Stepping(e.phase.left - {id})
      && Queued(e, e', id, !connected || PastEnd(t) || (!t.work && !up))
      && e'.objs[h] == t.(history := t.history + if connected && PastEnd(t) then [Complete] else [],
                          queries := t.queries + if connected && !PastEnd(t) && !t.work && up then 1 else 0)
  {
    var t := e.objs[h];
    assert t.(history := t.history + []) == t;
  }

  // ---------- Replies ----------

  /** A height query that failed is no longer outstanding; nothing else happens. */
  lemma HeightErrorExact(w: World, e: Engine, h: nat)
    requires h in e.objs && e.objs[h].queries > 0
    ensures var e' := Apply(w, e, Callback(h, HeightError));
      var t := e.objs[h];
      && OnlyTask(e, e', h) && e'.phase == e.phase && Queued(e, e', t.id, false)
      && e'.objs[h] == t.(queries := t.queries - 1)
  {
  }

  /** The block a height reply goes on with: the cursor, or the first block asked for, or the height. */
  function FirstOf(t: Task, height: int): int {
    if t.cursor >= 0 then t.cursor else if t.params.fromBlock > 0 then t.params.fromBlock else height
  }

  /** Block `x` is one of those that a height reply makes the task read. */
  predicate ToRead(t: Task, limit: int, height: int, x: int) {
    && FirstOf(t, height) <= x <= height
    && (t.params.toBlock > 0 ==> x <= t.params.toBlock)
    && x < FirstOf(t, height) + limit
  }

  /** The windows `ws'` are `ws` and one more, of exactly the blocks to read. */
  ghost predicate OneMoreWindow(t: Task, limit: int, height: int, ws': seq<Window>) {
    && |ws'| == |t.windows| + 1 && ws'[..|t.windows|] == t.windows
    && ws'[|t.windows|].next == FirstOf(t, height)
    && forall x :: ws'[|t.windows|].next <= x <= ws'[|t.windows|].end <==> ToRead(t, limit, height, x)
  }

  /** Callbacks to task `h` change that task by a step of the task machine, and queue its id if the step
      asks for it. */
  lemma CallbackExact(w: World, e: Engine, h: nat, a: Act)
    requires h in e.objs && !a.Poll?
    ensures var e', o := Apply(w, e, Callback(h, a)), Step(w, e.objs[h], a);
      OnlyTask(e, e', h) && e'.phase == e.phase && e'.objs[h] == o.task && Queued(e, e', e.objs[h].id, o.cancel)
  {
    hide Step;
  }

  /** What becomes of task `t` by a height reply. */
  ghost predicate AfterHeight(t: Task, limit: int, height: int, up: bool, t': Task) {
    var some := ToRead(t, limit, height, FirstOf(t, height));
    && t' == t.(queries := t'.queries, windows := t'.windows, work := t'.work, abandoned := t'.abandoned)
    && t'.queries == t.queries - 1
    && (if some && up then OneMoreWindow(t, limit, height, t'.windows) else t'.windows == t.windows)
    && t'.work == (if height < FirstOf(t, height) then t.work else some)
    && t'.abandoned == (t.abandoned || (some && !up))
  }

  lemma WindowIsToRead(t: Task, limit: int, height: int)
    ensures var v, some := WindowFor(t.params, t.cursor, limit, height), ToRead(t, limit, height, FirstOf(t, height));
      && (v.None? <==> height < FirstOf(t, height))
      && (v.Some? && v.value.next <= v.value.end <==> some)
      && (some ==> OneMoreWindow(t, limit, height, t.windows + [v.value]))
  {
  }

  lemma AnsweredExact(limit: int, t: Task, height: int, up: bool)
    requires t.queries > 0
    ensures var o := Answered(limit, t, height, up);
      AfterHeight(t, limit, height, up, o.task) && o.cancel == (!up && ToRead(t, limit, height, FirstOf(t, height)))
  {
    WindowIsToRead(t, limit, height);
    hide WindowFor, ToRead, OneMoreWindow;
  }

  /** A height reply below the task's next block only answers the query. Otherwise the task becomes busy
      and begins to read, if there is a block to read; if its group is gone it is cancelled instead. */
  lemma HeightExact(w: World, e: Engine, h: nat, height: int, up: bool)
    requires h in e.objs && e.objs[h].queries > 0 && 0 <= height < INT64_MAX
    ensures var e' := Apply(w, e, Callback(h, Height(height, up)));
      var t := e.objs[h];
      && OnlyTask(e, e', h) && e'.phase == e.phase
      && AfterHeight(t, w.limit, height, up, e'.objs[h])
      && Queued(e, e', t.id, !up && ToRead(t, w.limit, height, FirstOf(t, height)))
  {
    CallbackExact(w, e, h, Height(height, up));
    AnsweredExact(w.limit, e.objs[h], height, up);
    hide Apply, Answered, AfterHeight, ToRead, OnlyTask;
  }

  /** The windows `ws'` begin with those of `ws` but the `i`-th, in their order. */
  ghost predicate WithoutOne(ws: seq<Window>, i: nat, ws': seq<Window>)
    requires i < |ws| && |ws| - 1 <= |ws'|
  {
    && (forall k :: 0 <= k < i ==> ws'[k] == ws[k])
    && (forall k :: i <= k < |ws| - 1 ==> ws'[k] == ws[k + 1])
  }

  /** A failed fetch ends its own window and frees the task; nothing is matched or lost. */
  lemma BlockErrorExact(w: World, e: Engine, h: nat, i: nat)
    requires h in e.objs && i < |e.objs[h].windows|
    ensures var e' := Apply(w, e, Callback(h, BlockError(i)));
      var t, t' := e.objs[h], e'.objs[h];
      && OnlyTask(e, e', h) && e'.phase == e.phase && Queued(e, e', t.id, false)
      && t' == t.(windows := t'.windows, work := false)
      && |t'.windows| == |t.windows| - 1 && WithoutOne(t.windows, i, t'.windows)
  {
  }

  /** What the reply to the fetch of window `i` leaves to read. */
  ghost predicate WalksOn(ws: seq<Window>, i: nat, up: bool, ws': seq<Window>)
    requires i < |ws|
  {
    var v := ws[i];
    if v.next < v.end && up then
      |ws'| == |ws| && WithoutOne(ws, i, ws') && ws'[|ws| - 1] == Window(v.next + 1, v.end)
    else
      |ws'| == |ws| - 1 && WithoutOne(ws, i, ws')
  }

  /** What becomes of task `t` by block `b` arriving for its window `i`. */
  ghost predicate AfterBlock(t: Task, i: nat, b: Block, up: bool, t': Task)
    requires i < |t.windows|
  {
    var v := t.windows[i];
    && t' == t.(cursor := t'.cursor, history := t'.history, windows := t'.windows,
                work := t'.work, abandoned := t'.abandoned)
    && t'.cursor == (if v.next + 1 > t.cursor then v.next + 1 else t.cursor)
    && |t'.history| == |t.history| + 1 && t'.history[..|t.history|] == t.history
    && t'.history[|t.history|].Matched? && t'.history[|t.history|].block == v.next
    && RightlyPushed(t.params, b, t'.history[|t.history|].entries)
    && WalksOn(t.windows, i, up, t'.windows)
    && t'.work == (v.next < v.end && t.work)
    && t'.abandoned == (t.abandoned || (v.next < v.end && !up))
  }

  lemma AdvancedExact(t: Task, i: nat, b: Block, entries: seq<Entry>, up: bool)
    requires i < |t.windows| && RightlyPushed(t.params, b, entries)
    ensures var o := Advanced(t, i, entries, up);
      AfterBlock(t, i, b, up, o.task) && o.cancel == (!up && t.windows[i].next < t.windows[i].end)
  {
    hide RightlyPushed;
  }

  /** A fetched block is matched and the right entries pushed, the cursor moves behind it but never back,
      and the window goes on with its next block. At its end the task is free; if the group is gone before
      the end, the task is cancelled. The other windows are not touched. */
  lemma BlockOkExact(w: World, e: Engine, h: nat, i: nat, up: bool)
    requires h in e.objs && i < |e.objs[h].windows|
    ensures var e' := Apply(w, e, Callback(h, BlockOk(i, up)));
      var t := e.objs[h];
      && OnlyTask(e, e', h) && e'.phase == e.phase
      && AfterBlock(t, i, w.chain(t.group, t.windows[i].next), up, e'.objs[h])
      && Queued(e, e', t.id, !up && t.windows[i].next < t.windows[i].end)
  {
    var t := e.objs[h];
    var b := w.chain(t.group, t.windows[i].next);
    CallbackExact(w, e, h, BlockOk(i, up));
    DeliveredIsRight(t.params, b);
    AdvancedExact(t, i, b, Delivered(t.params, b), up);
    hide Apply, Advanced, AfterBlock, OnlyTask, Delivered, RightlyPushed;
  }

  // ---------- Who is on the cancel queue ----------

  /** In state `e`, action `a` makes somebody ask for the cancellation of `id`: a client; a poll that finds
      no session, a finished range, or no group; or a ledger reply that goes on to a block whose group is
      gone. */
  ghost predicate Asks(w: World, e: Engine, a: Action, id: string) {
    match a
    case Unsubscribe(x) => x == id
    case StepTask(x, connected, up) =>
      x == id && id in e.tasks && PollDue(e, id, e.tasks[id]) &&
      var t := e.objs[e.tasks[id]];
      !connected || PastEnd(t) || (!t.work && !up)
    case Callback(h, Height(height, up)) =>
      h in e.objs && e.objs[h].id == id && e.objs[h].queries > 0 && 0 <= height < INT64_MAX &&
      !up && ToRead(e.objs[h], w.limit, height, FirstOf(e.objs[h], height))
    case Callback(h, BlockOk(i, up)) =>
      h in e.objs && e.objs[h].id == id && i < |e.objs[h].windows| &&
      !up && e.objs[h].windows[i].next < e.objs[h].windows[i].end
    case _ => false
  }

  /** The worker takes the cancel queue. */
  ghost predicate Drains(e: Engine, a: Action) { a.DrainCancel? && e.phase.Idle? }

  lemma CallbackAsks(w: World, e: Engine, h: nat, act: Act, id: string)
    requires Can(e, Callback(h, act))
    ensures id in Apply(w, e, Callback(h, act)).cancelQueue <==> id in e.cancelQueue || Asks(w, e, Callback(h, act), id)
  {
    if Enabled(e.objs[h], act) {
      match act
      case HeightError => HeightErrorExact(w, e, h);
      case Height(height, up) => HeightExact(w, e, h, height, up);
      case BlockError(i) => BlockErrorExact(w, e, h, i);
      case BlockOk(i, up) => BlockOkExact(w, e, h, i, up);
    }
  }

  lemma StepAsks(w: World, e: Engine, a: Action, id: string)
    requires Consistent(e) && !Drains(e, a)
    ensures id in Apply(w, e, a).cancelQueue <==> id in e.cancelQueue || Asks(w, e, a, id)
  {
    if Can(e, a) {
      match a
      case Subscribe(_, _, _, _) =>
      case Unsubscribe(_) =>
      case DrainAdd =>
      case StepTask(x, connected, up) => PollExact(w, e, x, e.tasks[x], connected, up);
      case EndTick =>
      case Callback(h, act) => CallbackAsks(w, e, h, act, id);
    }
  }

  /** Somebody asked for the cancellation of `id` at step `i`, and the queue has not been taken since. */
  ghost predicate AskedSince(w: World, acts: seq<Action>, id: string, i: nat) {
    && i < |acts| && Asks(w, Run(w, EMPTY, acts[..i]), acts[i], id)
    && forall j :: i < j < |acts| ==> !Drains(Run(w, EMPTY, acts[..j]), acts[j])
  }

  lemma AskedGrows(w: World, acts: seq<Action>, a: Action, id: string)
    ensures (exists i: nat :: AskedSince(w, acts + [a], id, i)) <==>
      Asks(w, Run(w, EMPTY, acts), a, id) || (!Drains(Run(w, EMPTY, acts), a) && exists i: nat :: AskedSince(w, acts, id, i))
  {
    hide Asks, Apply, Drains;
    var h := acts + [a];
    assert h[..|acts|] == acts && h[|acts|] == a;
    assert forall j :: 0 <= j < |acts| ==> h[..j] == acts[..j] && h[j] == acts[j];
    if i: nat :| AskedSince(w, h, id, i) {
      if i < |acts| {
        assert AskedSince(w, acts, id, i) && !Drains(Run(w, EMPTY, h[..|acts|]), h[|acts|]);
      }
    }
    if Asks(w, Run(w, EMPTY, acts), a, id) {
      assert AskedSince(w, h, id, |acts|);
    }
    if !Drains(Run(w, EMPTY, acts), a) {
      if i: nat :| AskedSince(w, acts, id, i) {
        assert AskedSince(w, h, id, i);
      }
    }
  }

  /** In every run, an id is on the cancel queue if and only if somebody has asked for its cancellation
      since the worker last took the queue. */
  lemma {:induction false} CancelQueueFollowsHistory(w: World, acts: seq<Action>, id: string)
    requires AlwaysFits(w, EMPTY, acts)
    ensures id in Run(w, EMPTY, acts).cancelQueue <==> exists i: nat :: AskedSince(w, acts, id, i)
  {
    hide Asks, Apply;
    if acts != [] {
      var prev, a := acts[..|acts| - 1], acts[|acts| - 1];
      var e := Run(w, EMPTY, prev);
      assert prev + [a] == acts;
      FitsPrefix(w, EMPTY, acts);
      CancelQueueFollowsHistory(w, prev, id);
      Conservation(w, prev);
      AskedGrows(w, prev, a, id);
      if Drains(e, a) {
        DrainEmpties(w, e, id);
      } else {
        StepAsks(w, e, a, id);
      }
    }
  }

  /** Taking the cancel queue leaves it empty and its ids out of the task map. */
  lemma DrainEmpties(w: World, e: Engine, id: string)
    requires Consistent(e) && e.phase.Idle?
    ensures var e' := Apply(w, e, DrainCancel);
      && e'.cancelQueue == [] && (id in e'.tasks <==> id in e.tasks && id !in e.cancelQueue)
      && !Asks(w, e, DrainCancel, id)
  {
    PurgedIs(e.tasks, e.cancelQueue);
  }

  lemma {:induction false} StaysQueued(w: World, e: Engine, more: seq<Action>, id: string)
    requires id in e.cancelQueue && DrainCancel !in more
    ensures id in Run(w, e, more).cancelQueue
  {
    if more != [] {
      var prev, a := more[..|more| - 1], more[|more| - 1];
      assert a in more;
      StaysQueued(w, e, prev, id);
      QueueGrows(w, Run(w, e, prev), a, id);
    }
  }

  lemma QueueGrows(w: World, e: Engine, a: Action, id: string)
    requires id in e.cancelQueue && !a.DrainCancel?
    ensures id in Apply(w, e, a).cancelQueue
  {
    hide Step;
  }

  /** Whoever asks, a cancellation takes effect when the worker next takes the queue: no task is filed
      under the id any more. */
  lemma CancellationTakesEffect(w: World, acts: seq<Action>, a: Action, more: seq<Action>, id: string)
    requires AlwaysFits(w, EMPTY, acts + [a] + more) && DrainCancel !in more
    requires Asks(w, Run(w, EMPTY, acts), a, id) && Run(w, EMPTY, acts + [a] + more).phase.Idle?
    ensures id !in Apply(w, Run(w, EMPTY, acts + [a] + more), DrainCancel).tasks
  {
    FitsBefore(w, EMPTY, acts + [a], more);
    FitsBefore(w, EMPTY, acts, [a]);
    Conservation(w, acts);
    Run1(w, EMPTY, acts, a);
    StepAsks(w, Run(w, EMPTY, acts), a, id);
    RunConcat(w, EMPTY, acts + [a], more);
    StaysQueued(w, Run(w, EMPTY, acts + [a]), more, id);
    Conservation(w, acts + [a] + more);
    DrainEmpties(w, Run(w, EMPTY, acts + [a] + more), id);
  }

  /** A poll that finds the session gone, or the group of an idle task, asks nothing of the ledger and
      sends nothing; and the task is no longer active once the worker has next taken the queue. */
  lemma LostIsDropped(w: World, acts: seq<Action>, id: string, h: nat, connected: bool, up: bool, more: seq<Action>)
    requires AlwaysFits(w, EMPTY, acts + [StepTask(id, connected, up)] + more) && DrainCancel !in more
    requires PollDue(Run(w, EMPTY, acts), id, h)
    requires var t := Run(w, EMPTY, acts).objs[h]; !connected || (!t.work && !up && !PastEnd(t))
    requires Run(w, EMPTY, acts + [StepTask(id, connected, up)] + more).phase.Idle?
    ensures Apply(w, Run(w, EMPTY, acts), StepTask(id, connected, up)).objs[h] == Run(w, EMPTY, acts).objs[h]
    ensures !Active(Apply(w, Run(w, EMPTY, acts + [StepTask(id, connected, up)] + more), DrainCancel), h)
  {
    var a, e := StepTask(id, connected, up), Run(w, EMPTY, acts);
    PollExact(w, e, id, h, connected, up);
    assert e.objs[h].history + [] == e.objs[h].history;
    CancellationTakesEffect(w, acts, a, more, id);
    Run1(w, EMPTY, acts, a);
    RunConcat(w, EMPTY, acts + [a], more);
    IdLasts(w, Run(w, EMPTY, acts + [a]), more, h);
    DrainKeepsObjects(w, Run(w, EMPTY, acts + [a] + more));
  }

  lemma DrainKeepsObjects(w: World, e: Engine)
    ensures Apply(w, e, DrainCancel).objs == e.objs
  {
  }

  lemma {:induction false} IdLasts(w: World, e: Engine, acts: seq<Action>, h: nat)
    requires h in e.objs
    ensures h in Run(w, e, acts).objs && Run(w, e, acts).objs[h].id == e.objs[h].id
  {
    if acts != [] {
      IdLasts(w, e, acts[..|acts| - 1], h);
      IdKept(w, Run(w, e, acts[..|acts| - 1]), acts[|acts| - 1], h);
    }
  }

  lemma IdKept(w: World, e: Engine, a: Action, h: nat)
    requires h in e.objs
    ensures h in Apply(w, e, a).objs && Apply(w, e, a).objs[h].id == e.objs[h].id
  {
    if Can(e, a) {
      match a
      case StepTask(id, connected, up) => OnTaskKeepsIds(w, e, e.tasks[id], Poll(connected, up));
      case Callback(g, act) => OnTaskKeepsIds(w, e, g, act);
      case _ =>
    }
  }

  // ---------- Who is polled in a tick ----------

  /** Every task of the map is filed under its own id. */
  ghost predicate Filed(e: Engine) {
    forall k :: k in e.tasks ==> e.tasks[k] in e.objs && e.objs[e.tasks[k]].id == k
  }

  /** Action `i` polls the task filed under `id`. */
  ghost predicate PolledAt(w: World, e: Engine, acts: seq<Action>, id: string, i: nat) {
    && i < |acts| && acts[i].StepTask? && acts[i].id == id
    && var u := Run(w, e, acts[..i]); id in u.tasks && PollDue(u, id, u.tasks[id])
  }

  lemma PolledGrows(w: World, e: Engine, acts: seq<Action>, a: Action, id: string)
    ensures (exists i: nat :: PolledAt(w, e, acts + [a], id, i)) <==>
      || (exists i: nat :: PolledAt(w, e, acts, id, i))
      || (a.StepTask? && a.id == id &&
          id in Run(w, e, acts).tasks && PollDue(Run(w, e, acts), id, Run(w, e, acts).tasks[id]))
  {
    hide Apply, PollDue;
    var h := acts + [a];
    assert h[|acts|] == a && h[..|acts|] == acts;
    assert forall j :: 0 <= j < |acts| ==> h[j] == acts[j] && h[..j] == acts[..j];
    if i: nat :| PolledAt(w, e, acts, id, i) {
      assert PolledAt(w, e, h, id, i);
    }
    if i: nat :| PolledAt(w, e, h, id, i) {
      assert i < |acts| ==> PolledAt(w, e, acts, id, i);
    }
    if a.StepTask? && a.id == id && id in Run(w, e, acts).tasks && PollDue(Run(w, e, acts), id, Run(w, e, acts).tasks[id]) {
      assert PolledAt(w, e, h, id, |acts|);
    }
  }

  lemma PollingStep(w: World, e: Engine, a: Action, id: string)
    requires Filed(e) && e.phase.Stepping? && e.phase.left <= e.tasks.Keys && !a.EndTick?
    ensures var e' := Apply(w, e, a);
      && Filed(e') && e'.phase.Stepping? && e'.tasks == e.tasks && e'.phase.left <= e.phase.left
      && (id in e'.phase.left <==>
            id in e.phase.left && !(a.StepTask? && a.id == id && PollDue(e, id, e.tasks[id])))
  {
    if Can(e, a) {
      match a
      case StepTask(x, connected, up) => OnTaskKeepsIds(w, e, e.tasks[x], Poll(connected, up));
      case Callback(g, act) => OnTaskKeepsIds(w, e, g, act);
      case _ =>
    }
  }

  /** While the worker steps through the tasks, those still to be polled are those not polled yet. */
  lemma {:induction false} LeftFollowsHistory(w: World, e: Engine, acts: seq<Action>, id: string)
    requires Filed(e) && e.phase == Stepping(e.tasks.Keys) && EndTick !in acts
    ensures var e' := Run(w, e, acts);
      && Filed(e') && e'.phase.Stepping? && e'.tasks == e.tasks && e'.phase.left <= e.tasks.Keys
      && (id in e'.phase.left <==> id in e.tasks && !exists i: nat :: PolledAt(w, e, acts, id, i))
  {
    hide Apply, PollDue, Filed;
    if acts != [] {
      var prev, a := acts[..|acts| - 1], acts[|acts| - 1];
      assert prev + [a] == acts && a in acts;
      LeftFollowsHistory(w, e, prev, id);
      PolledGrows(w, e, prev, a, id);
      PollingStep(w, Run(w, e, prev), a, id);
    }
  }

  lemma NotPolledTwice(w: World, e: Engine, acts: seq<Action>, id: string, i: nat, j: nat)
    requires Filed(e) && e.phase == Stepping(e.tasks.Keys) && EndTick !in acts
    requires i < j < |acts| && PolledAt(w, e, acts, id, i)
    ensures !PolledAt(w, e, acts, id, j)
  {
    hide Apply, Filed;
    assert EndTick !in acts[..j];
    LeftFollowsHistory(w, e, acts[..j], id);
    assert acts[..j][..i] == acts[..i];
    assert PolledAt(w, e, acts[..j], id, i);
  }

  /** A tick polls every task that is in the map when its second drain is over, and each exactly once: as
      long as one is left to be polled the tick does not end, and none is polled twice. */
  lemma EachPolledOnce(w: World, e: Engine, acts: seq<Action>, id: string)
    requires Filed(e) && e.phase == Stepping(e.tasks.Keys) && EndTick !in acts
    ensures Apply(w, Run(w, e, acts), EndTick).phase.Idle? ==>
      (id in e.tasks <==> exists i: nat :: PolledAt(w, e, acts, id, i))
    ensures forall i: nat, j: nat :: i < j && PolledAt(w, e, acts, id, i) ==> !PolledAt(w, e, acts, id, j)
  {
    LeftFollowsHistory(w, e, acts, id);
    if i: nat :| PolledAt(w, e, acts, id, i) {
      assert EndTick !in acts[..i];
      LeftFollowsHistory(w, e, acts[..i], id);
    }
    forall i: nat, j: nat | i < j && PolledAt(w, e, acts, id, i) ensures !PolledAt(w, e, acts, id, j) {
      if j < |acts| {
        NotPolledTwice(w, e, acts, id, i, j);
      }
    }
    hide PolledAt, Filed, Run;
  }

  // ---------- What the fates mean ----------

  /** The task was active in some state of the run. */
  ghost predicate WasActive(w: World, acts: seq<Action>, h: nat) {
    exists n :: 0 <= n <= |acts| && Active(Run(w, EMPTY, acts[..n]), h)
  }

  lemma WasActiveGrows(w: World, acts: seq<Action>, a: Action, h: nat)
    ensures WasActive(w, acts + [a], h) <==> WasActive(w, acts, h) || Active(Run(w, EMPTY, acts + [a]), h)
  {
    hide Apply, Active;
    var u := acts + [a];
    assert u[..|u|] == u;
    assert forall n :: 0 <= n <= |acts| ==> u[..n] == acts[..n];
    if n :| 0 <= n <= |u| && Active(Run(w, EMPTY, u[..n]), h) {
      assert n <= |acts| ==> WasActive(w, acts, h);
    }
    if n :| 0 <= n <= |acts| && Active(Run(w, EMPTY, acts[..n]), h) {
      assert Active(Run(w, EMPTY, u[..n]), h);
    }
  }

  /** One step makes a task cancelled only if it was active, and takes a task out of the map only by
      cancelling it. */
  lemma FateStep(w: World, e: Engine, a: Action, h: nat)
    requires Consistent(e) && Partitioned(e) && Fits(Apply(w, e, a))
    ensures var e' := Apply(w, e, a);
      && (h in e'.cancelled <==> h in e.cancelled || (Active(e, h) && !Active(e', h)))
  {
    if Can(e, a) {
      match a
      case DrainCancel => FateDrained(e, h);
      case DrainAdd => RegisteredKnowsQueue(e.tasks, e.addQueue, IdOf(e.objs));
      case StepTask(id, connected, up) => OnTaskConserves(w, e, e.tasks[id], Poll(connected, up));
      case Callback(g, act) => OnTaskConserves(w, e, g, act);
      case Subscribe(_, _, _, _) => SubscribeConserves(w, e, a);
      case _ =>
    }
  }

  lemma FateDrained(e: Engine, h: nat)
    requires Consistent(e) && Partitioned(e)
    ensures h in Cancelling(e).cancelled <==>
      h in e.cancelled || (Active(e, h) && !Active(Cancelling(e).(phase := Adding), h))
  {
    PurgedIs(e.tasks, e.cancelQueue);
    if h in Cancelling(e).cancelled && h !in e.cancelled {
      var k :| k in e.cancelQueue && k in e.tasks && e.tasks[k] == h;
    }
  }

  /** In every run, the cancelled subscriptions are those that were active once and no longer are; hence
      the rejected ones are those that left the queue without ever being active. */
  lemma {:induction false} FatesFollowHistory(w: World, acts: seq<Action>, h: nat)
    requires AlwaysFits(w, EMPTY, acts)
    ensures var e := Run(w, EMPTY, acts);
      && (h in e.cancelled <==> WasActive(w, acts, h) && !Active(e, h))
      && (h in e.rejected <==> h in e.objs && h !in e.addQueue && !WasActive(w, acts, h))
  {
    hide Apply;
    Conservation(w, acts);
    if acts == [] {
      assert acts[..0] == [];
    } else {
      var prev, a := acts[..|acts| - 1], acts[|acts| - 1];
      assert prev + [a] == acts;
      FitsPrefix(w, EMPTY, acts);
      FatesFollowHistory(w, prev, h);
      Conservation(w, prev);
      FateStep(w, Run(w, EMPTY, prev), a, h);
      WasActiveGrows(w, prev, a, h);
    }
    assert Active(Run(w, EMPTY, acts), h) ==> WasActive(w, acts, h) by {
      assert acts[..|acts|] == acts;
    }
  }
}
