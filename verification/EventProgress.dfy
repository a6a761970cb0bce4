/** Exact progress: how many ticks a bounded subscription takes when the ledger answers at once. */
module EventProgress {
  import opened EventTypes
  import opened EventTask
  import opened EventStream
  import opened EventQueues
  import opened EventEngine
  import opened EventRuns

  // ---------- One synchronous poll of one task ----------

  function Repeat(n: nat, a: Act): seq<Act> { seq(n, _ => a) }

  /** Answers that arrive while the worker still polls the task: the height, then every block.
      Block replies beyond the window find no fetch to answer and change nothing. */
  function Replies(height: int, limit: nat): seq<Act> {
    [Height(height, true)] + Repeat(limit, BlockOk(0, true))
  }

  /** Between two polls with a synchronous ledger, nothing is outstanding. */
  ghost predicate AtRest(t: Task) {
    t.queries == 0 && t.windows == [] && !t.work && t.cursor >= -1
  }

  ghost predicate SameNotices(t: Task, t': Task) {
    Notices(t'.history) == Notices(t.history)
  }

  lemma RepeatLast(n: nat, a: Act)
    requires n > 0
    ensures Repeat(n, a) != [] && Repeat(n, a)[..|Repeat(n, a)| - 1] == Repeat(n - 1, a)
    ensures Repeat(n, a)[|Repeat(n, a)| - 1] == a
  {
  }

  /** Task `u` is task `t` walking a window that ends at `end` and stands at block `q`. */
  ghost predicate WalkingAt(t: Task, u: Task, q: int, end: int) {
    && u.params == t.params && u.id == t.id && SameNotices(t, u) && u.queries == 0
    && 0 <= q <= end + 1
    && if q <= end then u.windows == [Window(q, end)] && u.work && -1 <= u.cursor <= q
       else AtRest(u) && u.cursor == end + 1
  }

  lemma WalkAdvances(t: Task, u: Task, q: int, end: int, entries: seq<Entry>)
    requires WalkingAt(t, u, q, end) && q <= end
    ensures WalkingAt(t, Advanced(u, 0, entries, true).task, q + 1, end)
  {
    assert Without(u.windows, 0) == [];
    NoticesGrow(u.history, Matched(q, entries));
  }

  lemma WalkStep(w: World, t: Task, u: Task, q: int, end: int)
    requires WalkingAt(t, u, q, end)
    ensures WalkingAt(t, Step(w, u, BlockOk(0, true)).task, Min(q + 1, end + 1), end)
  {
    if q <= end {
      WalkAdvances(t, u, q, end, Delivered(u.params, w.chain(u.group, u.windows[0].next)));
    }
  }

  /** The task after `n` answered fetches. */
  ghost function Fetched(w: World, t: Task, n: nat): Task {
    if n == 0 then t else Step(w, Fetched(w, t, n - 1), BlockOk(0, true)).task
  }

  lemma RepeatStep(w: World, t: Task, n: nat, a: Act)
    ensures Exec(w, t, Repeat(n + 1, a)) == Step(w, Exec(w, t, Repeat(n, a)), a).task
  {
    RepeatLast(n + 1, a);
  }

  lemma {:induction false} FetchedIs(w: World, t: Task, n: nat)
    ensures Exec(w, t, Repeat(n, BlockOk(0, true))) == Fetched(w, t, n)
  {
    hide Step;
    if n > 0 {
      FetchedIs(w, t, n - 1);
      RepeatStep(w, t, n - 1, BlockOk(0, true));
    }
  }

  /** The walk of `t`, begun at block `c`, after `n` answered fetches. */
  ghost predicate WalkedTo(w: World, t: Task, end: int, c: int, n: nat) {
    WalkingAt(t, Fetched(w, t, n), Min(c + n, end + 1), end)
  }

  lemma FetchNext(w: World, t: Task, end: int, c: int, n: nat)
    requires WalkedTo(w, t, end, c, n)
    ensures WalkedTo(w, t, end, c, n + 1)
  {
    WalkStep(w, t, Fetched(w, t, n), Min(c + n, end + 1), end);
  }

  /** Each answered fetch takes the walk one block further. */
  lemma {:induction false} Walk(w: World, t: Task, end: int, c: int, n: nat)
    requires WalkedTo(w, t, end, c, 0)
    ensures WalkedTo(w, t, end, c, n)
  {
    if n > 0 {
      Walk(w, t, end, c, n - 1);
      FetchNext(w, t, end, c, n - 1);
    }
  }

  /** The cursor after a synchronous poll. */
  function NextCursor(p: Params, cursor: int, limit: nat): int {
    Min(p.toBlock + 1, (if cursor >= 0 then cursor else p.fromBlock) + limit)
  }

  lemma ExecConcat(w: World, t: Task, a: seq<Act>, b: seq<Act>)
    ensures Exec(w, t, a + b) == Exec(w, Exec(w, t, a), b)
    decreases |b|
  {
    hide Step;
    if b == [] {
      assert a + b == a;
    } else {
      var n := |b| - 1;
      ExecConcat(w, t, a, b[..n]);
      assert (a + b)[..|a + b| - 1] == a + b[..n];
    }
  }

  /** Task `t1` is task `t` at the beginning of a window that `n` fetches can read. */
  ghost predicate Opened(w: World, t: Task, t1: Task, c: int, end: int, n: nat) {
    && t1 == t.(queries := 0, work := true, windows := [Window(c, end)])
    && WalkedTo(w, t1, end, c, 0) && end < c + n
  }

  lemma WindowIsRead(w: World, t: Task, t1: Task, c: int, end: int, n: nat)
    requires Opened(w, t, t1, c, end, n)
    ensures var t' := Fetched(w, t1, n);
      t'.params == t.params && t'.id == t.id && SameNotices(t, t') && AtRest(t') && t'.cursor == end + 1
  {
    Walk(w, t1, end, c, n);
  }

  lemma RepliesAre(w: World, t: Task, height: int, n: nat)
    ensures Exec(w, t, Replies(height, n)) == Fetched(w, Step(w, t, Height(height, true)).task, n)
  {
    var a := Height(height, true);
    Exec1(w, t, [], a);
    assert [] + [a] == [a];
    ExecConcat(w, t, [a], Repeat(n, BlockOk(0, true)));
    FetchedIs(w, Step(w, t, a).task, n);
  }

  lemma HeightOpens(w: World, t: Task, height: int)
    requires t.queries == 1 && AtRest(t.(queries := 0)) && !Completed(t)
    requires 0 < t.params.fromBlock <= t.params.toBlock <= height < INT64_MAX && w.limit > 0
    ensures var t1, c, end := Step(w, t, Height(height, true)).task, Origin(t.params, t.cursor, height),
                              NextCursor(t.params, t.cursor, w.limit) - 1;
      Opened(w, t, t1, c, end, w.limit)
  {
  }

  /** A queried task reads one whole window and comes to rest. */
  lemma RepliesWork(w: World, t: Task, height: int)
    requires t.queries == 1 && AtRest(t.(queries := 0)) && !Completed(t)
    requires 0 < t.params.fromBlock <= t.params.toBlock <= height < INT64_MAX && w.limit > 0
    ensures var t' := Exec(w, t, Replies(height, w.limit));
      && t'.params == t.params && t'.id == t.id && SameNotices(t, t') && AtRest(t')
      && t'.cursor == NextCursor(t.params, t.cursor, w.limit)
  {
    var c, end := Origin(t.params, t.cursor, height), NextCursor(t.params, t.cursor, w.limit) - 1;
    HeightOpens(w, t, height);
    RepliesAre(w, t, height, w.limit);
    WindowIsRead(w, t, Step(w, t, Height(height, true)).task, c, end, w.limit);
  }

  /** A task at rest does not react to replies it did not ask for. */
  lemma RepliesIdle(w: World, t: Task, height: int, n: nat)
    requires t.queries == 0 && t.windows == []
    ensures Exec(w, t, Replies(height, n)) == t
  {
    RepliesAre(w, t, height, n);
    FetchedIdle(w, t, n);
  }

  lemma {:induction false} FetchedIdle(w: World, t: Task, n: nat)
    requires t.windows == []
    ensures Fetched(w, t, n) == t
  {
    if n > 0 {
      FetchedIdle(w, t, n - 1);
    }
  }

  // ---------- The same poll inside the engine ----------

  function Callbacks(h: nat, acts: seq<Act>): seq<Action> {
    seq(|acts|, i requires 0 <= i < |acts| => Callback(h, acts[i]))
  }

  lemma OneCallback(w: World, e: Engine, h: nat, a: Act)
    requires h in e.objs && (a.Height? || a.BlockOk?) && a.up
    ensures Apply(w, e, Callback(h, a)) == e.(objs := e.objs[h := Step(w, e.objs[h], a).task])
  {
  }

  /** Callbacks that find the group in place change nothing but their task. */
  lemma {:induction false} CallbacksRun(w: World, e: Engine, h: nat, acts: seq<Act>)
    requires h in e.objs
    requires forall i :: 0 <= i < |acts| ==> (acts[i].Height? || acts[i].BlockOk?) && acts[i].up
    ensures Run(w, e, Callbacks(h, acts)) == e.(objs := e.objs[h := Exec(w, e.objs[h], acts)])
  {
    if acts == [] {
      assert e.objs[h := e.objs[h]] == e.objs;
    } else {
      var n := |acts| - 1;
      CallbacksRun(w, e, h, acts[..n]);
      assert Callbacks(h, acts)[..n] == Callbacks(h, acts[..n]);
      OneCallback(w, Run(w, e, Callbacks(h, acts[..n])), h, acts[n]);
      assert e.objs[h := Exec(w, e.objs[h], acts[..n])][h := Exec(w, e.objs[h], acts)] == e.objs[h := Exec(w, e.objs[h], acts)];
    }
  }

  /** The worker's poll of task `h` with the ledger answering at once. */
  function Polling(id: string, h: nat, height: int, limit: nat): seq<Action> {
    [StepTask(id, true, true)] + Callbacks(h, Replies(height, limit))
  }

  // ---------- Whole ticks with arbitrary other activity ----------

  /** A step that concerns neither task `h` nor its id: any subscription, an unsubscription of another
      id, a poll under another id, and replies to other tasks; an older task object with the same id
      may still get replies, as long as they do not make it cancel the id. */
  ghost predicate Foreign(w: World, e: Engine, a: Action, h: nat, id: string) {
    match a
    case Subscribe(_, _, _, _) => true
    case Unsubscribe(x) => x != id
    case StepTask(x, _, _) => x != id
    case Callback(g, act) => g in e.objs ==> e.objs[g].id != id || (g != h && !Step(w, e.objs[g], act).cancel)
    case _ => false
  }

  ghost predicate AllForeign(w: World, e: Engine, acts: seq<Action>, h: nat, id: string) {
    forall n :: 0 <= n < |acts| ==> Foreign(w, Run(w, e, acts[..n]), acts[n], h, id)
  }

  /** Task `h` is in the map, not on the cancel queue, and in state `t`. */
  ghost predicate Holds(e: Engine, h: nat, t: Task) {
    Active(e, h) && e.objs[h] == t && t.id !in e.cancelQueue
  }

  /** Task `h` is on the add queue, the first there with its id. */
  ghost predicate Waiting(e: Engine, h: nat) {
    exists i: nat :: FirstWithId(e.addQueue, IdOf(e.objs), i) && e.addQueue[i] == h
  }

  /** Where the worker stands with respect to `id`: the same phase, and the id still due or not. */
  ghost predicate SamePhase(p: Phase, p': Phase, id: string) {
    match p
    case Idle => p'.Idle?
    case Adding => p'.Adding?
    case Stepping(left) => p'.Stepping? && (id in p'.left <==> id in left)
  }

  /** The task map files each task under its own id, queued handles are known, and the counters agree
      with their queues modulo 2^32. */
  ghost predicate Sane(e: Engine) {
    && e.addCount == |e.addQueue| % TWO_32
    && e.cancelCount == |e.cancelQueue| % TWO_32
    && (forall k :: k in e.tasks ==> e.tasks[k] in e.objs && e.objs[e.tasks[k]].id == k)
    && (forall g :: g in e.addQueue ==> g in e.objs)
  }

  /** What foreign steps leave as it is. */
  ghost predicate Beside(e: Engine, e': Engine, h: nat, t: Task) {
    && Sane(e') && h in e'.objs && e'.objs[h] == t
    && e'.tasks == e.tasks && e.addQueue <= e'.addQueue
    && (t.id in e'.cancelQueue <==> t.id in e.cancelQueue)
    && (forall g :: g in e.objs ==> g in e'.objs && e'.objs[g].id == e.objs[g].id)
    && SamePhase(e.phase, e'.phase, t.id)
  }

  lemma ForeignOnTask(w: World, e: Engine, g: nat, a: Act, h: nat, t: Task)
    requires Sane(e) && h in e.objs && e.objs[h] == t && g in e.objs && g != h
    requires e.objs[g].id != t.id || !Step(w, e.objs[g], a).cancel
    ensures Beside(e, OnTask(w, e, g, a), h, t) && OnTask(w, e, g, a).phase == e.phase
  {
    OnTaskKeepsIds(w, e, g, a);
  }

  lemma ForeignSubscription(w: World, e: Engine, a: Action, h: nat, t: Task)
    requires Sane(e) && h in e.objs && e.objs[h] == t && Can(e, a) && a.Subscribe?
    ensures Beside(e, Apply(w, e, a), h, t)
  {
  }

  lemma ForeignUnsubscription(e: Engine, id: string, h: nat, t: Task)
    requires Sane(e) && h in e.objs && e.objs[h] == t && id != t.id
    ensures Beside(e, WithCancel(e, id), h, t)
  {
  }

  lemma ForeignStep(w: World, e: Engine, a: Action, h: nat, t: Task)
    requires Sane(e) && h in e.objs && e.objs[h] == t && Foreign(w, e, a, h, t.id)
    ensures Beside(e, Apply(w, e, a), h, t)
  {
    if Can(e, a) {
      match a
      case Subscribe(_, _, _, _) => ForeignSubscription(w, e, a, h, t);
      case Unsubscribe(id) => ForeignUnsubscription(e, id, h, t);
      case StepTask(x, connected, up) => ForeignOnTask(w, e, e.tasks[x], Poll(connected, up), h, t);
      case Callback(g, act) => ForeignOnTask(w, e, g, act, h, t);
    }
  }

  lemma BesideTwice(e: Engine, e1: Engine, e2: Engine, h: nat, t: Task)
    requires Beside(e, e1, h, t) && Beside(e1, e2, h, t)
    ensures Beside(e, e2, h, t)
  {
  }

  lemma AllForeignPrefix(w: World, e: Engine, acts: seq<Action>, h: nat, id: string)
    requires acts != [] && AllForeign(w, e, acts, h, id)
    ensures AllForeign(w, e, acts[..|acts| - 1], h, id)
    ensures Foreign(w, Run(w, e, acts[..|acts| - 1]), acts[|acts| - 1], h, id)
  {
    var prev := acts[..|acts| - 1];
    forall i | 0 <= i < |prev| ensures Foreign(w, Run(w, e, prev[..i]), prev[i], h, id) {
      assert prev[..i] == acts[..i];
    }
  }

  lemma {:induction false} ForeignRun(w: World, e: Engine, acts: seq<Action>, h: nat, t: Task)
    requires Sane(e) && h in e.objs && e.objs[h] == t && AllForeign(w, e, acts, h, t.id)
    ensures Beside(e, Run(w, e, acts), h, t)
  {
    if acts != [] {
      var prev := acts[..|acts| - 1];
      AllForeignPrefix(w, e, acts, h, t.id);
      ForeignRun(w, e, prev, h, t);
      ForeignStep(w, Run(w, e, prev), acts[|acts| - 1], h, t);
      BesideTwice(e, Run(w, e, prev), Run(w, e, acts), h, t);
    }
  }

  lemma WaitingLasts(e: Engine, e': Engine, h: nat, t: Task)
    requires Sane(e) && Waiting(e, h) && Beside(e, e', h, t)
    ensures Waiting(e', h)
  {
    var i: nat :| FirstWithId(e.addQueue, IdOf(e.objs), i) && e.addQueue[i] == h;
    assert forall j :: 0 <= j <= i ==> e'.addQueue[j] == e.addQueue[j] && e.addQueue[j] in e.addQueue;
    assert FirstWithId(e'.addQueue, IdOf(e'.objs), i);
  }

  /** One tick around the poll of a task: other activity may come anywhere. */
  datatype Plan = Plan(idle: seq<Action>, mid: seq<Action>, before: seq<Action>, height: int, after: seq<Action>)

  /** The engine at the two drains, before the poll, after it, and at the end of the tick. */
  ghost function AtCancel(w: World, e: Engine, p: Plan): Engine { Run(w, e, p.idle) }

  ghost function AtAdd(w: World, e: Engine, p: Plan): Engine {
    Run(w, Apply(w, AtCancel(w, e, p), DrainCancel), p.mid)
  }

  ghost function Upto(w: World, e: Engine, p: Plan): Engine {
    Run(w, Apply(w, AtAdd(w, e, p), DrainAdd), p.before)
  }

  ghost function AfterPoll(w: World, e: Engine, id: string, h: nat, p: Plan): Engine
    requires w.limit >= 0
  {
    Run(w, Upto(w, e, p), Polling(id, h, p.height, w.limit))
  }

  ghost function Ticked(w: World, e: Engine, id: string, h: nat, p: Plan): Engine
    requires w.limit >= 0
  {
    Apply(w, Run(w, AfterPoll(w, e, id, h, p), p.after), EndTick)
  }

  /** All activity before the poll is foreign. */
  ghost predicate ProperStart(w: World, e: Engine, id: string, h: nat, p: Plan) {
    && AllForeign(w, e, p.idle, h, id)
    && AllForeign(w, Apply(w, AtCancel(w, e, p), DrainCancel), p.mid, h, id)
    && AllForeign(w, Apply(w, AtAdd(w, e, p), DrainAdd), p.before, h, id)
  }

  /** The ledger has reached the last block, the activity after the poll is foreign, and at the end all
      tasks have been polled. */
  ghost predicate ProperEnd(w: World, e: Engine, id: string, h: nat, p: Plan, to: int)
    requires w.limit >= 0
  {
    && to <= p.height < INT64_MAX
    && AllForeign(w, AfterPoll(w, e, id, h, p), p.after, h, id)
    && Run(w, AfterPoll(w, e, id, h, p), p.after).phase == Stepping({})
  }

  /** The poll of task `h`, in state `t`, is due. */
  ghost predicate Ready(e: Engine, h: nat, t: Task) {
    Sane(e) && Holds(e, h, t) && Can(e, StepTask(t.id, true, true))
  }

  lemma DrainCancelKeeps(w: World, e: Engine, h: nat, t: Task)
    requires Sane(e) && Holds(e, h, t) && e.phase.Idle?
    ensures var e' := Apply(w, e, DrainCancel); Sane(e') && Holds(e', h, t) && e'.phase.Adding?
  {
    PurgedIs(e.tasks, e.cancelQueue);
  }

  lemma FiledUnderOwnId(e: Engine, k: string)
    requires Sane(e) && k in Registered(e.tasks, e.addQueue, IdOf(e.objs))
    ensures var h := Registered(e.tasks, e.addQueue, IdOf(e.objs))[k]; h in e.objs && e.objs[h].id == k
  {
    RegisteredKnowsQueue(e.tasks, e.addQueue, IdOf(e.objs));
    if k !in e.tasks {
      RegisteredTakesFirst(e.tasks, e.addQueue, IdOf(e.objs), k);
    }
  }

  lemma DrainAddSane(w: World, e: Engine)
    requires Sane(e) && e.phase.Adding?
    ensures var e' := Apply(w, e, DrainAdd);
      Sane(e') && e'.objs == e.objs && e'.cancelQueue == e.cancelQueue && e'.phase == Stepping(e'.tasks.Keys)
  {
    var m := Registered(e.tasks, e.addQueue, IdOf(e.objs));
    forall k | k in m ensures m[k] in e.objs && e.objs[m[k]].id == k {
      FiledUnderOwnId(e, k);
    }
  }

  lemma DrainAddKeeps(w: World, e: Engine, h: nat, t: Task)
    requires Sane(e) && Holds(e, h, t) && e.phase.Adding?
    ensures Ready(Apply(w, e, DrainAdd), h, t)
  {
    DrainAddSane(w, e);
    RegisteredKnowsQueue(e.tasks, e.addQueue, IdOf(e.objs));
  }

  lemma ReadyLasts(w: World, e: Engine, acts: seq<Action>, h: nat, t: Task)
    requires Ready(e, h, t) && AllForeign(w, e, acts, h, t.id)
    ensures Ready(Run(w, e, acts), h, t)
  {
    ForeignRun(w, e, acts, h, t);
  }

  /** Up to its poll, a tick leaves a registered task as it was, and the poll is due. */
  lemma UptoKeeps(w: World, e: Engine, h: nat, t: Task, p: Plan)
    requires Sane(e) && Holds(e, h, t) && e.phase.Idle? && ProperStart(w, e, t.id, h, p)
    ensures Ready(Upto(w, e, p), h, t)
  {
    ForeignRun(w, e, p.idle, h, t);
    var e0 := AtCancel(w, e, p);
    DrainCancelKeeps(w, e0, h, t);
    ForeignRun(w, Apply(w, e0, DrainCancel), p.mid, h, t);
    DrainAddKeeps(w, AtAdd(w, e, p), h, t);
    ReadyLasts(w, Apply(w, AtAdd(w, e, p), DrainAdd), p.before, h, t);
  }

  // ---------- The tick that registers a task ----------

  /** A new task `t` waits to be registered: no other of its id is before it on the queue, and none is
      in the map, or else one that is about to be cancelled. */
  ghost predicate Due(e: Engine, h: nat, t: Task) {
    && Sane(e) && e.phase.Idle? && h in e.objs && e.objs[h] == t && Untouched(t)
    && Waiting(e, h) && (t.id in e.tasks ==> t.id in e.cancelQueue)
  }

  /** The queues are not overfull when the tick drains them. */
  ghost predicate DrainsFit(w: World, e: Engine, p: Plan) {
    Fits(AtCancel(w, e, p)) && Fits(AtAdd(w, e, p))
  }

  /** Between the drains, the way is free for task `h`. */
  ghost predicate Free(e: Engine, h: nat, t: Task) {
    && Sane(e) && e.phase.Adding? && h in e.objs && e.objs[h] == t && Waiting(e, h)
    && t.id !in e.tasks && t.id !in e.cancelQueue
  }

  lemma WaitingKept(e: Engine, e': Engine, h: nat)
    requires Waiting(e, h) && e'.addQueue == e.addQueue && e'.objs == e.objs
    ensures Waiting(e', h)
  {
    var i: nat :| FirstWithId(e.addQueue, IdOf(e.objs), i) && e.addQueue[i] == h;
    assert FirstWithId(e'.addQueue, IdOf(e'.objs), i);
  }

  lemma DrainCancelFrees(w: World, e: Engine, h: nat, t: Task)
    requires Due(e, h, t) && Fits(e)
    ensures Free(Apply(w, e, DrainCancel), h, t)
  {
    PurgedIs(e.tasks, e.cancelQueue);
    WaitingKept(e, Apply(w, e, DrainCancel), h);
  }

  /** The first of the queue with its id gets the free id. */
  lemma FirstIsTaken<T>(tasks: map<string, T>, queue: seq<T>, id: T -> string, i: nat)
    requires FirstWithId(queue, id, i) && id(queue[i]) !in tasks
    ensures var m := Registered(tasks, queue, id);
      id(queue[i]) in m && m[id(queue[i])] == queue[i]
  {
    var k := id(queue[i]);
    RegisteredKnowsQueue(tasks, queue, id);
    RegisteredTakesFirst(tasks, queue, id, k);
    var j: nat :| FirstWithId(queue, id, j) && id(queue[j]) == k && Registered(tasks, queue, id)[k] == queue[j];
    assert i <= j && j <= i;
  }

  lemma FreeIsTaken(e: Engine, h: nat, t: Task)
    requires Free(e, h, t) && Fits(e)
    ensures var m := Registered(e.tasks, e.addQueue, IdOf(e.objs)); t.id in m && m[t.id] == h
    ensures e.addCount != 0
  {
    var i: nat :| FirstWithId(e.addQueue, IdOf(e.objs), i) && e.addQueue[i] == h;
    assert IdOf(e.objs)(h) == t.id;
    FirstIsTaken(e.tasks, e.addQueue, IdOf(e.objs), i);
  }

  lemma DrainAddRegisters(w: World, e: Engine, h: nat, t: Task)
    requires Free(e, h, t) && Fits(e)
    ensures Ready(Apply(w, e, DrainAdd), h, t)
  {
    DrainAddSane(w, e);
    FreeIsTaken(e, h, t);
  }

  lemma DueLasts(w: World, e: Engine, acts: seq<Action>, h: nat, t: Task)
    requires Due(e, h, t) && AllForeign(w, e, acts, h, t.id)
    ensures Due(Run(w, e, acts), h, t)
  {
    ForeignRun(w, e, acts, h, t);
    WaitingLasts(e, Run(w, e, acts), h, t);
  }

  lemma FreeLasts(w: World, e: Engine, acts: seq<Action>, h: nat, t: Task)
    requires Free(e, h, t) && AllForeign(w, e, acts, h, t.id)
    ensures Free(Run(w, e, acts), h, t)
  {
    ForeignRun(w, e, acts, h, t);
    WaitingLasts(e, Run(w, e, acts), h, t);
  }

  /** Up to its poll, a tick registers a task that was due, as it was, and the poll is due. */
  lemma UptoRegisters(w: World, e: Engine, h: nat, t: Task, p: Plan)
    requires Due(e, h, t) && DrainsFit(w, e, p) && ProperStart(w, e, t.id, h, p)
    ensures Ready(Upto(w, e, p), h, t)
  {
    DueLasts(w, e, p.idle, h, t);
    DrainCancelFrees(w, AtCancel(w, e, p), h, t);
    FreeLasts(w, Apply(w, AtCancel(w, e, p), DrainCancel), p.mid, h, t);
    DrainAddRegisters(w, AtAdd(w, e, p), h, t);
    ReadyLasts(w, Apply(w, AtAdd(w, e, p), DrainAdd), p.before, h, t);
  }

  // ---------- The poll and the end of the tick ----------

  lemma PollStep(w: World, e: Engine, h: nat, t: Task)
    requires Ready(e, h, t)
    ensures var o, e' := Step(w, t, Poll(true, true)), Apply(w, e, StepTask(t.id, true, true));
      && o.task.id == t.id && Sane(e') && Active(e', h) && e'.objs[h] == o.task
      && (t.id in e'.cancelQueue <==> o.cancel)
      && e'.phase == Stepping(e.phase.left - {t.id})
  {
    StepKeepsIdentity(w, t, Poll(true, true));
  }

  lemma RepliesRun(w: World, e: Engine, h: nat, t: Task, height: int, limit: nat)
    requires Sane(e) && Active(e, h) && e.objs[h] == t
    ensures var t', e' := Exec(w, t, Replies(height, limit)), Run(w, e, Callbacks(h, Replies(height, limit)));
      && t'.id == t.id && Sane(e') && Active(e', h) && e'.objs[h] == t'
      && e'.cancelQueue == e.cancelQueue && e'.phase == e.phase
  {
    CallbacksRun(w, e, h, Replies(height, limit));
    ExecKeepsIdentity(w, t, Replies(height, limit));
  }

  /** The poll in the engine: the task is replaced by its state after the replies. */
  lemma PollingRuns(w: World, e: Engine, h: nat, t: Task, height: int)
    requires Ready(e, h, t) && w.limit > 0
    ensures var o := Step(w, t, Poll(true, true));
      var t' := Exec(w, o.task, Replies(height, w.limit));
      var e' := Run(w, e, Polling(t.id, h, height, w.limit));
      && t'.id == t.id && Sane(e') && Active(e', h) && e'.objs[h] == t'
      && (t.id in e'.cancelQueue <==> o.cancel)
      && e'.phase == Stepping(e.phase.left - {t.id})
  {
    var a, r := StepTask(t.id, true, true), Replies(height, w.limit);
    var e1 := Apply(w, e, a);
    assert Run(w, e, [a]) == e1 by {
      Run1(w, e, [], a);
      assert [] + [a] == [a];
    }
    RunConcat(w, e, [a], Callbacks(h, r));
    PollStep(w, e, h, t);
    RepliesRun(w, e1, h, e1.objs[h], height, w.limit);
  }

  lemma {:induction false} ExecKeepsIdentity(w: World, t: Task, acts: seq<Act>)
    ensures Exec(w, t, acts).id == t.id && Exec(w, t, acts).params == t.params
  {
    if acts != [] {
      ExecKeepsIdentity(w, t, acts[..|acts| - 1]);
      StepKeepsIdentity(w, Exec(w, t, acts[..|acts| - 1]), acts[|acts| - 1]);
    }
  }

  /** After its poll, a tick leaves the task alone and ends. */
  lemma TickEnds(w: World, e: Engine, h: nat, t: Task, p: Plan, to: int)
    requires w.limit > 0 && Ready(Upto(w, e, p), h, t) && ProperEnd(w, e, t.id, h, p, to)
    ensures var o := Step(w, t, Poll(true, true));
      var t' := Exec(w, o.task, Replies(p.height, w.limit));
      var e' := Ticked(w, e, t.id, h, p);
      && t'.id == t.id && Sane(e') && Active(e', h) && e'.objs[h] == t' && e'.phase.Idle?
      && (t.id in e'.cancelQueue <==> o.cancel)
  {
    PollingRuns(w, Upto(w, e, p), h, t, p.height);
    var e2 := AfterPoll(w, e, t.id, h, p);
    ForeignRun(w, e2, p.after, h, e2.objs[h]);
  }

  /** A tick of an unfinished task moves its cursor by one window and leaves it at rest. */
  lemma WorkingTick(w: World, e: Engine, h: nat, t: Task, p: Plan)
    requires w.limit > 0 && Ready(Upto(w, e, p), h, t) && ProperEnd(w, e, t.id, h, p, t.params.toBlock)
    requires 0 < t.params.fromBlock <= t.params.toBlock && AtRest(t) && !Completed(t) && Notices(t.history) == 0
    ensures Underway(Ticked(w, e, t.id, h, p), h, t, NextCursor(t.params, t.cursor, w.limit))
  {
    TickEnds(w, e, h, t, p, t.params.toBlock);
    RepliesWork(w, Step(w, t, Poll(true, true)).task, p.height);
  }

  /** A tick of a finished task sends the notice and puts the task on the cancel queue. */
  lemma FinishingTick(w: World, e: Engine, h: nat, t: Task, p: Plan)
    requires w.limit > 0 && Ready(Upto(w, e, p), h, t) && ProperEnd(w, e, t.id, h, p, t.params.toBlock)
    requires AtRest(t) && Completed(t)
    ensures var e' := Ticked(w, e, t.id, h, p);
      && Sane(e') && Active(e', h) && e'.phase.Idle? && e'.objs[h] == t.(history := t.history + [Complete])
      && t.id in e'.cancelQueue
  {
    TickEnds(w, e, h, t, p, t.params.toBlock);
    RepliesIdle(w, Step(w, t, Poll(true, true)).task, p.height, w.limit);
  }

  // ---------- Many ticks ----------

  /** `e'` is the engine after a proper tick from `e`. */
  ghost predicate IsTick(w: World, e: Engine, e': Engine, id: string, h: nat, p: Plan, to: int)
    requires w.limit >= 0
  {
    ProperStart(w, e, id, h, p) && ProperEnd(w, e, id, h, p, to) && e' == Ticked(w, e, id, h, p)
  }

  ghost predicate TickAt(w: World, es: seq<Engine>, id: string, h: nat, plans: seq<Plan>, to: int, n: nat)
    requires w.limit >= 0 && |es| == |plans| + 1 && n < |plans|
  {
    IsTick(w, es[n], es[n + 1], id, h, plans[n], to)
  }

  /** `es` are the engine states at the ends of consecutive proper ticks. */
  ghost predicate AllTicks(w: World, es: seq<Engine>, id: string, h: nat, plans: seq<Plan>, to: int)
    requires w.limit >= 0
  {
    |es| == |plans| + 1 && forall n :: 0 <= n < |plans| ==> TickAt(w, es, id, h, plans, to, n)
  }

  /** The number of windows a range of `len` blocks takes. */
  function Windows(len: int, limit: nat): nat
    requires limit > 0
    decreases len
  {
    if len <= 0 then 0 else 1 + Windows(len - limit, limit)
  }

  /** It is the least number of windows that hold the range, that is, the quotient rounded up. */
  lemma {:induction false} WindowsExact(len: int, limit: nat, n: nat)
    requires limit > 0
    ensures n * limit >= len <==> n >= Windows(len, limit)
    decreases len
  {
    if len > 0 && n > 0 {
      WindowsExact(len - limit, limit, n - 1);
      assert n * limit == (n - 1) * limit + limit;
    } else {
      assert n * limit >= 0;
    }
  }

  /** The cursor after `n` ticks: min(to + 1, from + n * limit), or unset before the first. */
  function CursorAt(p: Params, n: nat, limit: nat): int {
    if n == 0 then -1 else Min(p.toBlock + 1, p.fromBlock + n * limit)
  }

  lemma CursorSteps(p: Params, n: nat, limit: nat)
    requires 0 < p.fromBlock <= p.toBlock && limit > 0
    ensures NextCursor(p, CursorAt(p, n, limit), limit) == CursorAt(p, n + 1, limit)
    ensures CursorAt(p, n, limit) > p.toBlock <==> n >= Windows(p.toBlock - p.fromBlock + 1, limit)
    ensures CursorAt(p, n, limit) <= p.toBlock + 1
  {
    WindowsExact(p.toBlock - p.fromBlock + 1, limit, n);
    assert (n + 1) * limit == n * limit + limit;
    assert n * limit >= 0;
  }

  /** The task of handle `h` is registered, at rest with this cursor, and has sent no notice. */
  ghost predicate Underway(e: Engine, h: nat, t: Task, cursor: int) {
    && Sane(e) && e.phase.Idle? && h in e.objs
    && Holds(e, h, e.objs[h]) && AtRest(e.objs[h])
    && e.objs[h].id == t.id && e.objs[h].params == t.params
    && e.objs[h].cursor == cursor && Notices(e.objs[h].history) == 0
  }

  lemma UnderwayTick(w: World, e: Engine, e': Engine, h: nat, t: Task, cursor: int, p: Plan)
    requires Underway(e, h, t, cursor) && w.limit > 0 && cursor <= t.params.toBlock
    requires 0 < t.params.fromBlock <= t.params.toBlock && IsTick(w, e, e', t.id, h, p, t.params.toBlock)
    ensures Underway(e', h, t, NextCursor(t.params, cursor, w.limit))
  {
    UptoKeeps(w, e, h, e.objs[h], p);
    WorkingTick(w, e, h, e.objs[h], p);
  }

  /** Task `h` waits to be registered, or is registered and has not read a block. */
  ghost predicate Begins(w: World, e: Engine, h: nat, t: Task, p: Plan) {
    (Due(e, h, t) && DrainsFit(w, e, p)) || Underway(e, h, t, -1)
  }

  /** The tick that registers a task also reads its first window. */
  lemma FirstTick(w: World, e: Engine, e': Engine, h: nat, t: Task, p: Plan)
    requires Begins(w, e, h, t, p) && w.limit > 0
    requires 0 < t.params.fromBlock <= t.params.toBlock && IsTick(w, e, e', t.id, h, p, t.params.toBlock)
    ensures Underway(e', h, t, CursorAt(t.params, 1, w.limit))
  {
    CursorSteps(t.params, 0, w.limit);
    if Underway(e, h, t, -1) {
      UnderwayTick(w, e, e', h, t, -1, p);
    } else {
      UptoRegisters(w, e, h, t, p);
      WorkingTick(w, e, h, t, p);
    }
  }

  lemma TickFirst(w: World, es: seq<Engine>, h: nat, t: Task, plans: seq<Plan>)
    requires w.limit > 0 && 0 < t.params.fromBlock <= t.params.toBlock && |plans| > 0
    requires AllTicks(w, es, t.id, h, plans, t.params.toBlock) && Begins(w, es[0], h, t, plans[0])
    ensures Underway(es[1], h, t, CursorAt(t.params, 1, w.limit))
  {
    assert TickAt(w, es, t.id, h, plans, t.params.toBlock, 0);
    FirstTick(w, es[0], es[1], h, t, plans[0]);
  }

  lemma TickNext(w: World, es: seq<Engine>, h: nat, t: Task, plans: seq<Plan>, k: nat, cursor: int)
    requires w.limit > 0 && 0 < t.params.fromBlock <= t.params.toBlock && k < |plans|
    requires AllTicks(w, es, t.id, h, plans, t.params.toBlock)
    requires Underway(es[k], h, t, cursor) && cursor <= t.params.toBlock
    ensures Underway(es[k + 1], h, t, NextCursor(t.params, cursor, w.limit))
  {
    assert TickAt(w, es, t.id, h, plans, t.params.toBlock, k);
    UnderwayTick(w, es[k], es[k + 1], h, t, cursor, plans[k]);
  }

  lemma TickLast(w: World, es: seq<Engine>, h: nat, t: Task, plans: seq<Plan>)
    requires w.limit > 0 && 0 < t.params.toBlock && |plans| > 0
    requires AllTicks(w, es, t.id, h, plans, t.params.toBlock)
    requires Underway(es[|plans| - 1], h, t, t.params.toBlock + 1)
    ensures Finished(w, es[|plans| - 1], es[|plans|], h)
  {
    var n := |plans| - 1;
    assert TickAt(w, es, t.id, h, plans, t.params.toBlock, n);
    FinalTick(w, es[n], es[n + 1], h, t, plans[n]);
  }

  /** After `k` ticks, counting the one that registers the task, up to the number of windows of the
      range, the cursor stands at min(to + 1, from + k * limit) and no notice was sent. */
  lemma {:induction false} CursorAfter(w: World, es: seq<Engine>, h: nat, t: Task, plans: seq<Plan>, k: nat)
    requires w.limit > 0 && 0 < t.params.fromBlock <= t.params.toBlock
    requires 0 < k <= |plans| && k <= Windows(t.params.toBlock - t.params.fromBlock + 1, w.limit)
    requires AllTicks(w, es, t.id, h, plans, t.params.toBlock) && Begins(w, es[0], h, t, plans[0])
    ensures Underway(es[k], h, t, CursorAt(t.params, k, w.limit))
  {
    if k == 1 {
      TickFirst(w, es, h, t, plans);
    } else {
      CursorAfter(w, es, h, t, plans, k - 1);
      CursorSteps(t.params, k - 1, w.limit);
      TickNext(w, es, h, t, plans, k - 1, CursorAt(t.params, k - 1, w.limit));
    }
  }

  /** A task found on a queue that has not overflowed is dropped when the queue is drained. */
  lemma CancelledIsDropped(w: World, e: Engine, h: nat)
    requires Sane(e) && Fits(e) && e.phase.Idle? && Active(e, h) && e.objs[h].id in e.cancelQueue
    ensures !Active(Apply(w, e, DrainCancel), h)
  {
    PurgedIs(e.tasks, e.cancelQueue);
  }

  /** Between `e` and `e'` the notice was sent, and draining the cancel queue drops the task. */
  ghost predicate Finished(w: World, e: Engine, e': Engine, h: nat)
    requires h in e.objs
  {
    && Active(e', h) && e'.objs[h].history == e.objs[h].history + [Complete]
    && (Fits(e') ==> !Active(Apply(w, e', DrainCancel), h))
  }

  /** The tick after the last window sends the notice; the tick after that drops the task. */
  lemma FinalTick(w: World, e: Engine, e': Engine, h: nat, t: Task, p: Plan)
    requires Underway(e, h, t, t.params.toBlock + 1) && w.limit > 0 && 0 < t.params.toBlock
    requires IsTick(w, e, e', t.id, h, p, t.params.toBlock)
    ensures Finished(w, e, e', h)
  {
    UptoKeeps(w, e, h, e.objs[h], p);
    FinishingTick(w, e, h, e.objs[h], p);
    if Fits(e') {
      CancelledIsDropped(w, e', h);
    }
  }

  lemma LastCursor(p: Params, n: nat, limit: nat)
    requires 0 < p.fromBlock <= p.toBlock && limit > 0 && n == Windows(p.toBlock - p.fromBlock + 1, limit)
    ensures CursorAt(p, n, limit) == p.toBlock + 1
  {
    CursorSteps(p, n, limit);
  }

  /** Exact progress: whatever else goes on, a new subscription to a range of `len` blocks, with a
      ledger that answers at once, is notified as complete on tick Windows(len, limit) + 1 counting the
      tick that registers it, not before, and has left the task map once the next tick has drained the
      cancel queue. */
  lemma ExactProgress(w: World, es: seq<Engine>, h: nat, t: Task, plans: seq<Plan>)
    requires w.limit > 0 && 0 < t.params.fromBlock <= t.params.toBlock
    requires AllTicks(w, es, t.id, h, plans, t.params.toBlock)
    requires |plans| == Windows(t.params.toBlock - t.params.fromBlock + 1, w.limit) + 1
    requires Begins(w, es[0], h, t, plans[0])
    ensures forall k :: 0 < k < |plans| ==> Underway(es[k], h, t, CursorAt(t.params, k, w.limit))
    ensures Underway(es[|plans| - 1], h, t, t.params.toBlock + 1)
    ensures Finished(w, es[|plans| - 1], es[|plans|], h)
  {
    forall k | 0 < k < |plans| ensures Underway(es[k], h, t, CursorAt(t.params, k, w.limit)) {
      CursorAfter(w, es, h, t, plans, k);
    }
    LastCursor(t.params, |plans| - 1, w.limit);
    TickLast(w, es, h, t, plans);
  }

  // ---------- The starting points are those of engine runs ----------

  lemma SaneEngine(e: Engine)
    requires Consistent(e) && Partitioned(e) && Fits(e)
    ensures Sane(e)
  {
  }

  lemma SaneRun(w: World, acts: seq<Action>)
    requires AlwaysFits(w, EMPTY, acts)
    ensures Sane(Run(w, EMPTY, acts))
  {
    Conservation(w, acts);
    assert acts + [] == acts;
    FitsBefore(w, EMPTY, acts, []);
    SaneEngine(Run(w, EMPTY, acts));
  }

  /** In every run, a subscription that waits between ticks as the first of its id is due, unless
      another task holds the id and nobody has cancelled it. */
  lemma WaitingIsDue(w: World, acts: seq<Action>, h: nat)
    requires AlwaysFits(w, EMPTY, acts) && Waiting(Run(w, EMPTY, acts), h)
    requires var e := Run(w, EMPTY, acts);
      e.phase.Idle? && (IdOf(e.objs)(h) in e.tasks ==> IdOf(e.objs)(h) in e.cancelQueue)
    ensures var e := Run(w, EMPTY, acts); h in e.objs && Due(e, h, e.objs[h])
  {
    SaneRun(w, acts);
    RunHealthy(w, acts);
    var e := Run(w, EMPTY, acts);
    var i: nat :| FirstWithId(e.addQueue, IdOf(e.objs), i) && e.addQueue[i] == h;
    assert h in e.addQueue;
    assert ObjectOk(e, h);
  }

  /** A registered task that has done nothing yet and that nobody has cancelled is underway. */
  lemma RegisteredIsUnderway(w: World, acts: seq<Action>, h: nat)
    requires AlwaysFits(w, EMPTY, acts)
    requires var e := Run(w, EMPTY, acts);
      e.phase.Idle? && Active(e, h) && Untouched(e.objs[h]) && e.objs[h].id !in e.cancelQueue
    ensures var e := Run(w, EMPTY, acts); Underway(e, h, e.objs[h], -1)
  {
    SaneRun(w, acts);
  }

  // ---------- Such ticks exist ----------

  /** A tick in which nothing else happens. */
  function Alone(height: int): Plan { Plan([], [], [], height, []) }

  /** Task `h`, in state `t`, is the only one in the engine; the queues are empty. */
  ghost predicate Lone(e: Engine, h: nat, t: Task) {
    && h in e.objs && e.objs[h] == t && e.tasks == map[t.id := h]
    && e.addQueue == [] && e.addCount == 0 && e.cancelQueue == [] && e.cancelCount == 0
  }

  lemma LoneUpto(w: World, e: Engine, h: nat, t: Task, height: int)
    requires Lone(e, h, t) && e.phase.Idle?
    ensures Upto(w, e, Alone(height)) == e.(phase := Stepping({t.id}))
  {
    assert Apply(w, e.(phase := Adding), DrainAdd) == e.(phase := Stepping({t.id})) by {
      assert map[t.id := h].Keys == {t.id};
    }
  }

  /** A tick in which nothing else happens is a proper one. */
  lemma AloneIsProper(w: World, e: Engine, h: nat, t: Task, height: int, to: int)
    requires w.limit > 0 && to <= height < INT64_MAX
    requires Ready(Upto(w, e, Alone(height)), h, t) && Upto(w, e, Alone(height)).phase == Stepping({t.id})
    ensures ProperStart(w, e, t.id, h, Alone(height)) && ProperEnd(w, e, t.id, h, Alone(height), to)
  {
    PollingRuns(w, Upto(w, e, Alone(height)), h, t, height);
    assert {t.id} - {t.id} == {};
  }

  lemma LoneTick(w: World, e: Engine, h: nat, t: Task, height: int, to: int)
    requires Lone(e, h, t) && e.phase.Idle? && w.limit > 0 && to <= height < INT64_MAX
    ensures IsTick(w, e, Ticked(w, e, t.id, h, Alone(height)), t.id, h, Alone(height), to)
  {
    LoneUpto(w, e, h, t, height);
    AloneIsProper(w, e, h, t, height, to);
  }

  /** A lone task that is not completed is still alone after its poll. */
  lemma LonePoll(w: World, e: Engine, h: nat, t: Task, height: int)
    requires Lone(e, h, t) && e.phase == Stepping({t.id}) && w.limit > 0 && AtRest(t) && !Completed(t)
    ensures var e' := Run(w, e, Polling(t.id, h, height, w.limit));
      h in e'.objs && Lone(e', h, e'.objs[h])
  {
    var a, r := StepTask(t.id, true, true), Replies(height, w.limit);
    var e1 := Apply(w, e, a);
    assert Run(w, e, [a]) == e1 by {
      Run1(w, e, [], a);
      assert [] + [a] == [a];
    }
    RunConcat(w, e, [a], Callbacks(h, r));
    CallbacksRun(w, e1, h, r);
    ExecKeepsIdentity(w, e1.objs[h], r);
  }

  lemma LoneStays(w: World, e: Engine, h: nat, t: Task, height: int)
    requires Lone(Upto(w, e, Alone(height)), h, t) && Upto(w, e, Alone(height)).phase == Stepping({t.id})
    requires w.limit > 0 && AtRest(t) && !Completed(t)
    ensures var e' := Ticked(w, e, t.id, h, Alone(height)); h in e'.objs && Lone(e', h, e'.objs[h])
  {
    LonePoll(w, Upto(w, e, Alone(height)), h, t, height);
  }

  /** The first subscription to an idle engine. */
  ghost function Subscribed(w: World, h: nat, t: Task): Engine {
    Run(w, EMPTY, [Subscribe(h, t.id, t.group, t.params)])
  }

  lemma SubscribedIs(w: World, h: nat, t: Task)
    requires Untouched(t)
    ensures Subscribed(w, h, t) == EMPTY.(objs := map[h := t], addQueue := [h], addCount := 1)
    ensures Due(Subscribed(w, h, t), h, t)
  {
    var s := Subscribe(h, t.id, t.group, t.params);
    Run1(w, EMPTY, [], s);
    assert [] + [s] == [s];
    assert FirstWithId([h], IdOf(map[h := t]), 0);
  }

  lemma RegisteredOne<T>(t: T, id: T -> string)
    ensures Registered(map[], [t], id) == map[id(t) := t]
  {
    var none: map<string, T> := map[];
    assert [t][..0] == [];
    assert Registered(none, [], id) == none;
  }

  lemma SubscribedUpto(w: World, h: nat, t: Task, height: int)
    requires Untouched(t)
    ensures var e := Subscribed(w, h, t);
      && Lone(Upto(w, e, Alone(height)), h, t) && Upto(w, e, Alone(height)).phase == Stepping({t.id})
      && DrainsFit(w, e, Alone(height))
  {
    var e := Subscribed(w, h, t);
    SubscribedIs(w, h, t);
    assert AtAdd(w, e, Alone(height)) == e.(phase := Adding);
    RegisteredOne(h, IdOf(e.objs));
    assert map[t.id := h].Keys == {t.id};
  }

  /** The states at the ends of `k` ticks of a lone task. */
  lemma {:induction false} LoneTicks(w: World, h: nat, t: Task, height: int, k: nat)
    returns (es: seq<Engine>, plans: seq<Plan>)
    requires Untouched(t) && w.limit > 0 && 0 < t.params.fromBlock <= t.params.toBlock <= height < INT64_MAX
    requires 0 < k <= Windows(t.params.toBlock - t.params.fromBlock + 1, w.limit)
    ensures AllTicks(w, es, t.id, h, plans, t.params.toBlock) && |plans| == k
    ensures es[0] == Subscribed(w, h, t) && plans[0] == Alone(height)
    ensures h in es[k].objs && Lone(es[k], h, es[k].objs[h]) && Underway(es[k], h, t, CursorAt(t.params, k, w.limit))
    decreases k
  {
    SubscribedIs(w, h, t);
    SubscribedUpto(w, h, t, height);
    if k == 1 {
      var e := Subscribed(w, h, t);
      AloneIsProper(w, e, h, t, height, t.params.toBlock);
      LoneStays(w, e, h, t, height);
      es, plans := [e, Ticked(w, e, t.id, h, Alone(height))], [Alone(height)];
      assert TickAt(w, es, t.id, h, plans, t.params.toBlock, 0);
    } else {
      es, plans := LoneTicks(w, h, t, height, k - 1);
      CursorSteps(t.params, k - 1, w.limit);
      es, plans := OneMoreTick(w, es, plans, h, t, height);
    }
    CursorAfter(w, es, h, t, plans, k);
  }

  lemma OneMoreTick(w: World, es: seq<Engine>, plans: seq<Plan>, h: nat, t: Task, height: int)
    returns (es': seq<Engine>, plans': seq<Plan>)
    requires w.limit > 0 && 0 < t.params.fromBlock <= t.params.toBlock <= height < INT64_MAX
    requires AllTicks(w, es, t.id, h, plans, t.params.toBlock)
    requires var e := es[|plans|];
      h in e.objs && Lone(e, h, e.objs[h]) && e.phase.Idle? && e.objs[h].id == t.id
    ensures plans' == plans + [Alone(height)] && |es'| == |es| + 1 && es'[..|es|] == es
    ensures AllTicks(w, es', t.id, h, plans', t.params.toBlock)
    ensures var e, e' := es[|plans|], es'[|plans'|];
      AtRest(e.objs[h]) && !Completed(e.objs[h]) ==> h in e'.objs && Lone(e', h, e'.objs[h])
  {
    var n, e := |plans|, es[|plans|];
    var u := e.objs[h];
    var e' := Ticked(w, e, t.id, h, Alone(height));
    LoneTick(w, e, h, u, height, t.params.toBlock);
    es', plans' := es + [e'], plans + [Alone(height)];
    forall i | 0 <= i < |plans'| ensures TickAt(w, es', t.id, h, plans', t.params.toBlock, i) {
      assert i < n ==> TickAt(w, es, t.id, h, plans, t.params.toBlock, i);
    }
    if AtRest(u) && !Completed(u) {
      LoneUpto(w, e, h, u, height);
      LoneStays(w, e, h, u, height);
    }
  }

  /** The ticks of the progress theorem exist: a lone subscription, given to an idle engine in which
      nothing else happens, goes through them from its registration to its notice. */
  lemma ProgressHappens(w: World, h: nat, t: Task, height: int) returns (es: seq<Engine>, plans: seq<Plan>)
    requires Untouched(t) && w.limit > 0 && 0 < t.params.fromBlock <= t.params.toBlock <= height < INT64_MAX
    ensures AllTicks(w, es, t.id, h, plans, t.params.toBlock)
    ensures |plans| == Windows(t.params.toBlock - t.params.fromBlock + 1, w.limit) + 1
    ensures es[0] == Subscribed(w, h, t) && Begins(w, es[0], h, t, plans[0])
  {
    es, plans := LoneTicks(w, h, t, height, Windows(t.params.toBlock - t.params.fromBlock + 1, w.limit));
    SubscribedIs(w, h, t);
    SubscribedUpto(w, h, t, height);
    es, plans := OneMoreTick(w, es, plans, h, t, height);
  }
}
