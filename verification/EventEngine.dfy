/** The subscription engine: client calls, worker ticks and ledger callbacks, freely interleaved.

    Task objects are named by handles and live in `objs` from their submission on, so that callbacks
    still find a task that has left the task map. A tick is split at its lock regions; inside the
    stepping phase each task is one step. */
module EventEngine {
  import opened EventTypes
  import opened EventTask
  import opened EventQueues

  datatype Phase = Idle | Adding | Stepping(left: set<string>)

  /** `rejected` and `cancelled` record what became of the task objects that left the queues. */
  datatype Engine = Engine(
    objs: map<nat, Task>,
    tasks: map<string, nat>,
    addQueue: seq<nat>, addCount: nat,
    cancelQueue: seq<string>, cancelCount: nat,
    phase: Phase,
    rejected: set<nat>, cancelled: set<nat>)

  const EMPTY: Engine := Engine(map[], map[], [], 0, [], 0, Idle, {}, {})

  datatype Action =
    | Subscribe(handle: nat, id: string, group: string, params: Params)
    | Unsubscribe(id: string)
    | DrainCancel
    | DrainAdd
    | StepTask(id: string, connected: bool, up: bool)
    | EndTick
    | Callback(handle: nat, act: Act)

  function IdOf(objs: map<nat, Task>): nat -> string {
    h => if h in objs then objs[h].id else ""
  }

  function WithCancel(e: Engine, id: string): Engine {
    e.(cancelQueue := e.cancelQueue + [id], cancelCount := (e.cancelCount + 1) % TWO_32)
  }

  /** A step of the task object `h`, which may put the task's id on the cancel queue. */
  ghost function OnTask(w: World, e: Engine, h: nat, a: Act): Engine
    requires h in e.objs
  {
    var o := Step(w, e.objs[h], a);
    var e1 := e.(objs := e.objs[h := o.task]);
    if o.cancel then WithCancel(e1, e.objs[h].id) else e1
  }

  ghost function Cancelling(e: Engine): Engine {
    if e.cancelCount == 0 then e
    else e.(tasks := Purged(e.tasks, e.cancelQueue),
            cancelled := e.cancelled + (set k | k in e.cancelQueue && k in e.tasks :: e.tasks[k]),
            cancelQueue := [], cancelCount := 0)
  }

  ghost function Registering(e: Engine): Engine {
    if e.addCount == 0 then e
    else
      var m := Registered(e.tasks, e.addQueue, IdOf(e.objs));
      e.(tasks := m,
         rejected := e.rejected + (set h | h in e.addQueue && h in e.objs && e.objs[h].id in m && m[e.objs[h].id] != h),
         addQueue := [], addCount := 0)
  }

  predicate Can(e: Engine, a: Action) {
    match a
    case Subscribe(h, _, _, _) => h !in e.objs
    case Unsubscribe(_) => true
    case DrainCancel => e.phase.Idle?
    case DrainAdd => e.phase.Adding?
    case StepTask(id, _, _) => e.phase.Stepping? && id in e.phase.left && id in e.tasks && e.tasks[id] in e.objs
    case EndTick => e.phase == Stepping({})
    case Callback(h, act) => h in e.objs && !act.Poll?
  }

  /** One step of the engine; a step that is not possible changes nothing. */
  ghost function Apply(w: World, e: Engine, a: Action): Engine {
    if !Can(e, a) then e else
    match a
    case Subscribe(h, id, group, params) =>
      e.(objs := e.objs[h := NewTask(id, group, params)],
         addQueue := e.addQueue + [h], addCount := (e.addCount + 1) % TWO_32)
    case Unsubscribe(id) => WithCancel(e, id)
    case DrainCancel => Cancelling(e).(phase := Adding)
    case DrainAdd => var e1 := Registering(e); e1.(phase := Stepping(e1.tasks.Keys))
    case StepTask(id, connected, up) =>
      OnTask(w, e, e.tasks[id], Poll(connected, up)).(phase := Stepping(e.phase.left - {id}))
    case EndTick => e.(phase := Idle)
    case Callback(h, act) => OnTask(w, e, h, act)
  }

  ghost function Run(w: World, e: Engine, acts: seq<Action>): Engine {
    if acts == [] then e
    else Apply(w, Run(w, e, acts[..|acts| - 1]), acts[|acts| - 1])
  }

  lemma Run1(w: World, e: Engine, acts: seq<Action>, a: Action)
    ensures Run(w, e, acts + [a]) == Apply(w, Run(w, e, acts), a)
  {
    assert (acts + [a])[..|acts|] == acts;
  }

  lemma {:induction false} RunConcat(w: World, e: Engine, a: seq<Action>, b: seq<Action>)
    ensures Run(w, e, a + b) == Run(w, Run(w, e, a), b)
    decreases |b|
  {
    if b == [] {
      assert a + b == a;
    } else {
      var n := |b| - 1;
      RunConcat(w, e, a, b[..n]);
      assert (a + b)[..|a + b| - 1] == a + b[..n];
    }
  }

  /** Fewer than 2^32 requests are queued, so the 32-bit counters do not wrap to zero. */
  predicate Fits(e: Engine) {
    |e.addQueue| < TWO_32 && |e.cancelQueue| < TWO_32
  }

  ghost predicate AlwaysFits(w: World, e: Engine, acts: seq<Action>) {
    forall n :: 0 <= n <= |acts| ==> Fits(Run(w, e, acts[..n]))
  }

  lemma FitsPrefix(w: World, e: Engine, acts: seq<Action>)
    requires acts != [] && AlwaysFits(w, e, acts)
    ensures AlwaysFits(w, e, acts[..|acts| - 1]) && Fits(Run(w, e, acts))
  {
    var prev := acts[..|acts| - 1];
    forall n | 0 <= n <= |prev| ensures Fits(Run(w, e, prev[..n])) {
      assert prev[..n] == acts[..n];
    }
    assert acts[..|acts|] == acts;
  }

  lemma FitsBefore(w: World, e: Engine, acts: seq<Action>, more: seq<Action>)
    requires AlwaysFits(w, e, acts + more)
    ensures AlwaysFits(w, e, acts) && Fits(Run(w, e, acts + more))
  {
    forall n | 0 <= n <= |acts| ensures Fits(Run(w, e, acts[..n])) {
      assert (acts + more)[..n] == acts[..n];
    }
    assert (acts + more)[..|acts + more|] == acts + more;
  }

  // ---------- Conservation of subscriptions ----------

  ghost predicate Active(e: Engine, h: nat) {
    h in e.objs && e.objs[h].id in e.tasks && e.tasks[e.objs[h].id] == h
  }

  /** Counters agree with the queues, and the task map files every task under its own id. */
  ghost predicate Consistent(e: Engine) {
    && e.addCount == |e.addQueue| && e.cancelCount == |e.cancelQueue|
    && Distinct(e.addQueue)
    && (forall k :: k in e.tasks ==> e.tasks[k] in e.objs && e.objs[e.tasks[k]].id == k)
    && (e.phase.Stepping? ==> e.phase.left <= e.tasks.Keys)
  }

  /** The four fates of a submitted subscription are exhaustive and exclusive. */
  ghost predicate Partitioned(e: Engine) {
    && (forall h :: h in e.objs <==> h in e.addQueue || Active(e, h) || h in e.rejected || h in e.cancelled)
    && (forall h :: h in e.addQueue ==> !Active(e, h) && h !in e.rejected && h !in e.cancelled)
    && (forall h :: Active(e, h) ==> h !in e.rejected && h !in e.cancelled)
    && e.rejected !! e.cancelled
  }

  lemma CancellingConserves(e: Engine)
    requires Consistent(e) && Partitioned(e)
    ensures Consistent(Cancelling(e).(phase := Adding)) && Partitioned(Cancelling(e).(phase := Adding))
    ensures Cancelling(e).tasks == e.tasks - SetOf(e.cancelQueue) && Cancelling(e).cancelQueue == []
  {
    PurgedIs(e.tasks, e.cancelQueue);
    var e' := Cancelling(e).(phase := Adding);
    assert e'.tasks == e.tasks - SetOf(e.cancelQueue);
    forall h ensures Active(e', h) <==> Active(e, h) && e.objs[h].id !in e.cancelQueue {
    }
    forall h ensures h in e'.cancelled <==> h in e.cancelled || (Active(e, h) && e.objs[h].id in e.cancelQueue) {
      if h in e'.cancelled && h !in e.cancelled {
        var k :| k in e.cancelQueue && k in e.tasks && e.tasks[k] == h;
      }
    }
  }

  lemma RegisteringConserves(e: Engine)
    requires Consistent(e) && Partitioned(e)
    ensures var e' := Registering(e).(phase := Stepping(Registering(e).tasks.Keys));
      && Consistent(e') && Partitioned(e')
      && e'.addQueue == []
      && (forall h :: Active(e', h) ==> Active(e, h) || h in e.addQueue)
  {
    var id, m := IdOf(e.objs), Registered(e.tasks, e.addQueue, IdOf(e.objs));
    RegisteredIs(e.tasks, e.addQueue, id);
    var e' := Registering(e).(phase := Stepping(Registering(e).tasks.Keys));
    forall k | k in e'.tasks ensures e'.tasks[k] in e'.objs && e'.objs[e'.tasks[k]].id == k {
      if k !in e.tasks {
        var i: nat :| FirstWithId(e.addQueue, id, i) && id(e.addQueue[i]) == k && m[k] == e.addQueue[i];
        assert e.addQueue[i] in e.addQueue;
      }
    }
    forall h | Active(e', h) ensures Active(e, h) || h in e.addQueue {
      var k := e.objs[h].id;
      if k !in e.tasks {
        var i: nat :| FirstWithId(e.addQueue, id, i) && id(e.addQueue[i]) == k && m[k] == e.addQueue[i];
        assert e.addQueue[i] in e.addQueue;
      }
    }
    forall h | h in e.addQueue ensures Active(e', h) != (h in e'.rejected) {
      assert id(h) in m;
    }
    forall h | h in e'.rejected ensures h in e.rejected || h in e.addQueue {
    }
  }

  /** Steps of task objects change neither who is filed where nor anyone's fate. */
  lemma FatesKept(e: Engine, e': Engine)
    requires Partitioned(e) && e'.objs.Keys == e.objs.Keys && e'.tasks == e.tasks && e'.addQueue == e.addQueue
    requires e'.rejected == e.rejected && e'.cancelled == e.cancelled
    requires forall g :: g in e.objs ==> e'.objs[g].id == e.objs[g].id
    ensures Partitioned(e') && forall g :: Active(e', g) <==> Active(e, g)
  {
    forall g ensures Active(e', g) <==> Active(e, g) {
    }
  }

  lemma OnTaskKeepsIds(w: World, e: Engine, h: nat, a: Act)
    requires h in e.objs
    ensures var e' := OnTask(w, e, h, a);
      && e'.objs.Keys == e.objs.Keys && e'.tasks == e.tasks && e'.addQueue == e.addQueue && e'.addCount == e.addCount
      && e'.rejected == e.rejected && e'.cancelled == e.cancelled && e'.phase == e.phase
      && (forall g :: g in e.objs ==> e'.objs[g].id == e.objs[g].id)
      && (forall k :: k in e.cancelQueue ==> k in e'.cancelQueue)
  {
    StepKeepsIdentity(w, e.objs[h], a);
  }

  lemma OnTaskConserves(w: World, e: Engine, h: nat, a: Act)
    requires Consistent(e) && Partitioned(e) && h in e.objs && Fits(OnTask(w, e, h, a))
    ensures var e' := OnTask(w, e, h, a);
      && Consistent(e') && Partitioned(e') && (forall g :: Active(e', g) <==> Active(e, g))
      && e'.tasks == e.tasks
  {
    OnTaskKeepsIds(w, e, h, a);
    FatesKept(e, OnTask(w, e, h, a));
  }

  lemma SubscribeConserves(w: World, e: Engine, a: Action)
    requires Consistent(e) && Partitioned(e) && a.Subscribe? && Can(e, a) && Fits(Apply(w, e, a))
    ensures Consistent(Apply(w, e, a)) && Partitioned(Apply(w, e, a))
    ensures forall g :: Active(Apply(w, e, a), g) <==> Active(e, g)
  {
    var e', h := Apply(w, e, a), a.handle;
    assert forall x :: x in e'.addQueue <==> x in e.addQueue || x == h;
    forall g ensures Active(e', g) <==> Active(e, g) {
    }
  }

  lemma ApplyConserves(w: World, e: Engine, a: Action)
    requires Consistent(e) && Partitioned(e) && Fits(Apply(w, e, a))
    ensures Consistent(Apply(w, e, a)) && Partitioned(Apply(w, e, a))
  {
    if Can(e, a) {
      match a
      case Subscribe(_, _, _, _) => SubscribeConserves(w, e, a);
      case Unsubscribe(id) =>
        assert forall g :: Active(WithCancel(e, id), g) <==> Active(e, g);
      case DrainCancel => CancellingConserves(e);
      case DrainAdd => RegisteringConserves(e);
      case StepTask(id, connected, up) =>
        var h := e.tasks[id];
        OnTaskConserves(w, e, h, Poll(connected, up));
        PhaseConserves(OnTask(w, e, h, Poll(connected, up)), Stepping(e.phase.left - {id}));
      case EndTick => PhaseConserves(e, Idle);
      case Callback(h, act) => OnTaskConserves(w, e, h, act);
    }
  }

  lemma PhaseConserves(e: Engine, phase: Phase)
    requires Consistent(e) && Partitioned(e) && (phase.Stepping? ==> phase.left <= e.tasks.Keys)
    ensures Consistent(e.(phase := phase)) && Partitioned(e.(phase := phase))
  {
    assert forall g :: Active(e.(phase := phase), g) <==> Active(e, g);
  }

  /** In every run, each counter is its queue's length and every submitted subscription is exactly
      one of pending, active, rejected as a duplicate, or cancelled. */
  lemma {:induction false} Conservation(w: World, acts: seq<Action>)
    requires AlwaysFits(w, EMPTY, acts)
    ensures Consistent(Run(w, EMPTY, acts)) && Partitioned(Run(w, EMPTY, acts))
  {
    if acts != [] {
      FitsPrefix(w, EMPTY, acts);
      Conservation(w, acts[..|acts| - 1]);
      ApplyConserves(w, Run(w, EMPTY, acts[..|acts| - 1]), acts[|acts| - 1]);
    }
  }
}
