/** The task and engine objects, updated in place by the handlers of the source. The methods on a task
    make the step of the same name of the task machine; the queue and tick methods compute the functions
    over queues and task maps that the engine machine is made of. */
module EventSub {
  import opened EventTypes
  import opened EventMatcher
  import opened EventTask
  import opened EventStream
  import opened EventQueues

  /** A task with its cursor and busy flag. The outstanding ledger replies and the calls made to the
      client's callback are kept with the task they belong to. */
  class EventSubTask {
    const id: string
    const group: string
    const params: Params
    var currentBlockNumber: int
    var work: bool
    var queries: nat
    var windows: seq<Window>
    var history: seq<Event>
    var abandoned: bool

    function View(): Task
      reads this
    {
      Task(id, group, params, currentBlockNumber, work, queries, windows, history, abandoned)
    }

    constructor (id: string, group: string, params: Params)
      ensures View() == NewTask(id, group, params)
    {
      this.id, this.group, this.params := id, group, params;
      currentBlockNumber, work, queries, windows, history, abandoned := -1, false, 0, [], [], false;
    }

    /** The cursor never moves back. */
    method SetCurrentBlockNumber(n: int)
      modifies this`currentBlockNumber
      ensures currentBlockNumber == Max(old(currentBlockNumber), n)
    {
      if n > currentBlockNumber {
        currentBlockNumber := n;
      }
    }

    method IsCompleted() returns (r: bool)
      ensures r <==> params.toBlock >= 0 && currentBlockNumber > params.toBlock
    {
      if params.toBlock < 0 {
        return false;
      }
      return currentBlockNumber > params.toBlock;
    }
  }

  function TaskId(t: EventSubTask): string { t.id }

  /** A poll must cancel a task whose session is gone, whose range is finished, or which is not busy and
      has lost its group. */
  predicate MustCancel(t: Task, connected: bool, up: bool) {
    !connected || 0 <= t.params.toBlock < t.cursor || (!t.work && !up)
  }

  /** All tasks but those of `left` were polled once, and `requested` are the ids of those whose poll
      asked for cancellation. */
  ghost predicate AllPolled(was: map<string, Task>, now: map<string, Task>, left: set<string>, requested: seq<string>,
                            connected: string -> bool, up: string -> bool)
  {
    && now.Keys == was.Keys
    && (forall k :: k in was ==> now[k] == if k in left then was[k] else Polled(was[k], connected(k), up(k)).task)
    && (forall k :: k in requested <==> k in was && k !in left && MustCancel(was[k], connected(k), up(k)))
  }

  lemma OneMorePolled(was: map<string, Task>, now: map<string, Task>, left: set<string>, requested: seq<string>,
                      connected: string -> bool, up: string -> bool, id: string, asked: seq<string>)
    requires AllPolled(was, now, left, requested, connected, up) && id in left && id in was
    requires asked == if MustCancel(now[id], connected(id), up(id)) then [id] else []
    ensures AllPolled(was, now[id := Polled(now[id], connected(id), up(id)).task], left - {id}, requested + asked, connected, up)
  {
  }

  lemma AppendAssociates(a: seq<string>, b: seq<string>, c: seq<string>)
    ensures a + b + c == a + (b + c)
  {
  }

  class EventSub {
    const maxBlockProcessPerLoop: int
    var addTasks: seq<EventSubTask>
    var addTaskCount: nat
    var cancelTasks: seq<string>
    var cancelTaskCount: nat
    var tasks: map<string, EventSubTask>

    /** The counters agree with the queues modulo 2^32, and tasks are filed under their own ids. */
    ghost predicate Valid()
      reads this
    {
      && addTaskCount == |addTasks| % TWO_32
      && cancelTaskCount == |cancelTasks| % TWO_32
      && forall k :: k in tasks ==> tasks[k].id == k
    }

    constructor (limit: int)
      ensures Valid() && tasks == map[] && addTasks == [] && cancelTasks == []
      ensures maxBlockProcessPerLoop == limit
    {
      maxBlockProcessPerLoop := limit;
      addTasks, addTaskCount, cancelTasks, cancelTaskCount, tasks := [], 0, [], 0, map[];
    }

    method SubscribeEventSub(task: EventSubTask)
      requires Valid()
      modifies this`addTasks, this`addTaskCount
      ensures Valid() && addTasks == old(addTasks) + [task]
    {
      addTasks := addTasks + [task];
      addTaskCount := (addTaskCount + 1) % TWO_32;
    }

    method UnsubscribeEventSub(id: string)
      requires Valid()
      modifies this`cancelTasks, this`cancelTaskCount
      ensures Valid() && cancelTasks == old(cancelTasks) + [id]
    {
      cancelTasks := cancelTasks + [id];
      cancelTaskCount := (cancelTaskCount + 1) % TWO_32;
    }

    /** Drains the cancel queue, unless its counter reads zero. */
    method ExecuteCancelTasks()
      requires Valid()
      modifies this`tasks, this`cancelTasks, this`cancelTaskCount
      ensures Valid()
      ensures old(|cancelTasks|) % TWO_32 == 0 ==> tasks == old(tasks) && cancelTasks == old(cancelTasks)
      ensures old(|cancelTasks|) % TWO_32 != 0 ==> tasks == Purged(old(tasks), old(cancelTasks)) && cancelTasks == []
      ensures old(|cancelTasks|) < TWO_32 ==> tasks == old(tasks) - SetOf(old(cancelTasks)) && cancelTasks == []
    {
      PurgedIs(tasks, cancelTasks);
      if cancelTaskCount == 0 {
        return;
      }
      var queue := cancelTasks;
      for i := 0 to |queue|
        invariant tasks == Purged(old(tasks), queue[..i])
        invariant forall k :: k in tasks ==> tasks[k].id == k
      {
        assert queue[..i + 1][..i] == queue[..i];
        tasks := tasks - {queue[i]};
      }
      assert queue[..|queue|] == queue;
      cancelTaskCount := 0;
      cancelTasks := [];
    }

    /** Drains the add queue, unless its counter reads zero. */
    method ExecuteAddTasks()
      requires Valid()
      modifies this`tasks, this`addTasks, this`addTaskCount
      ensures Valid()
      ensures old(|addTasks|) % TWO_32 == 0 ==> tasks == old(tasks) && addTasks == old(addTasks)
      ensures old(|addTasks|) % TWO_32 != 0 ==>
        tasks == Registered(old(tasks), old(addTasks), TaskId) && addTasks == []
    {
      if addTaskCount == 0 {
        return;
      }
      var queue := addTasks;
      for i := 0 to |queue|
        invariant tasks == Registered(old(tasks), queue[..i], TaskId)
        invariant forall k :: k in tasks ==> tasks[k].id == k
      {
        assert queue[..i + 1][..i] == queue[..i];
        var task := queue[i];
        if task.id !in tasks {
          tasks := tasks[task.id := task];
        }
      }
      assert queue[..|queue|] == queue;
      addTaskCount := 0;
      addTasks := [];
    }

    /** One poll of a task by the worker. */
    method ExecuteEventSubTask(task: EventSubTask, connected: bool, up: bool)
      requires Valid()
      modifies this`cancelTasks, this`cancelTaskCount, task`queries, task`history
      ensures Valid()
      ensures var o := Polled(old(task.View()), connected, up);
        && task.View() == o.task
        && cancelTasks == old(cancelTasks) + if o.cancel then [task.id] else []
      ensures cancelTasks == old(cancelTasks) + if MustCancel(old(task.View()), connected, up) then [task.id] else []
    {
      if !connected {
        UnsubscribeEventSub(task.id);
        return;
      }
      var completed := task.IsCompleted();
      if completed {
        UnsubscribeEventSub(task.id);
        task.history := task.history + [Complete];
        return;
      }
      if task.work {
        return;
      }
      if !up {
        UnsubscribeEventSub(task.id);
        return;
      }
      task.queries := task.queries + 1;
    }

    /** `RecursiveProcess::process` up to the next fetch. */
    method ProcessBlock(task: EventSubTask, n: int, end: int, up: bool)
      requires Valid()
      modifies this`cancelTasks, this`cancelTaskCount, task`work, task`windows, task`abandoned
      ensures Valid()
      ensures var o := Process(old(task.View()), n, end, up);
        && task.View() == o.task
        && cancelTasks == old(cancelTasks) + if o.cancel then [task.id] else []
    {
      if n > end {
        task.work := false;
        return;
      }
      if !up {
        task.abandoned := true;
        UnsubscribeEventSub(task.id);
        return;
      }
      task.windows := task.windows + [Window(n, end)];
    }

    /** The height reply: opens a window unless the chain has not reached the task's cursor. */
    method OnBlockNumber(task: EventSubTask, height: int, up: bool)
      requires Valid() && task.queries > 0
      requires IsInt64(task.params.fromBlock) && IsInt64(task.params.toBlock)
      requires -1 <= task.currentBlockNumber <= INT64_MAX && 0 <= height < INT64_MAX
      requires INT64_MIN < maxBlockProcessPerLoop <= INT64_MAX
      modifies this`cancelTasks, this`cancelTaskCount, task
      ensures Valid()
      ensures var o := Answered(maxBlockProcessPerLoop, old(task.View()), height, up);
        && task.View() == o.task
        && cancelTasks == old(cancelTasks) + if o.cancel then [task.id] else []
    {
      task.queries := task.queries - 1;
      var window := OpenWindow(task.params, task.currentBlockNumber, maxBlockProcessPerLoop, height);
      if window.None? {
        return;
      }
      task.work := true;
      ProcessBlock(task, window.value.next, window.value.end, up);
    }

    /** A fetched block: match it, call the client back if the count is not zero, move on. */
    method OnBlockData(task: EventSubTask, i: nat, block: Block, up: bool)
      requires Valid() && i < |task.windows|
      modifies this`cancelTasks, this`cancelTaskCount, task
      ensures Valid()
      ensures var o := Advanced(old(task.View()), i, Delivered(task.params, block), up);
        && task.View() == o.task
        && cancelTasks == old(cancelTasks) + if o.cancel then [task.id] else []
    {
      var v := task.windows[i];
      task.windows := task.windows[..i] + task.windows[i + 1..];
      var count, entries := MatchesBlock(task.params, block, []);
      assert [] + BlockEntries(task.params, block) == BlockEntries(task.params, block);
      task.history := task.history + [Matched(v.next, if count != 0 then entries else [])];
      task.SetCurrentBlockNumber(v.next + 1);
      ProcessBlock(task, v.next + 1, v.end, up);
    }

    /** A failed fetch: the window is abandoned until a later poll. */
    method OnBlockError(task: EventSubTask, i: nat)
      requires i < |task.windows|
      modifies task`windows, task`work
      ensures task.View() == Failed(old(task.View()), i).task
    {
      task.windows := task.windows[..i] + task.windows[i + 1..];
      task.work := false;
    }

    ghost function Snapshot(): map<string, Task>
      reads this, tasks.Values
    {
      map k | k in tasks :: tasks[k].View()
    }

    /** Polls the task filed under `id`; the others are not touched. */
    method PollTask(id: string, connected: bool, up: bool) returns (ghost asked: seq<string>)
      requires Valid() && id in tasks
      modifies this`cancelTasks, this`cancelTaskCount, tasks.Values`queries, tasks.Values`history
      ensures Valid()
      ensures var o := Polled(old(Snapshot())[id], connected, up);
        && Snapshot() == old(Snapshot())[id := o.task]
        && asked == (if MustCancel(old(Snapshot())[id], connected, up) then [id] else [])
      ensures cancelTasks == old(cancelTasks) + asked
    {
      asked := if MustCancel(tasks[id].View(), connected, up) then [id] else [];
      ExecuteEventSubTask(tasks[id], connected, up);
      forall k | k in tasks ensures Snapshot()[k] == if k == id then tasks[id].View() else old(Snapshot())[k] {
        assert k != id ==> tasks[k] != tasks[id];
      }
    }

    /** Polls every task of the map once, in some order; `requested` are the ids it puts on the
        cancel queue. */
    method ExecuteEventSubTasks(connected: string -> bool, up: string -> bool) returns (ghost requested: seq<string>)
      requires Valid()
      modifies this`cancelTasks, this`cancelTaskCount, tasks.Values`queries, tasks.Values`history
      ensures Valid() && cancelTasks == old(cancelTasks) + requested
      ensures AllPolled(old(Snapshot()), Snapshot(), {}, requested, connected, up)
    {
      var left := tasks.Keys;
      ghost var was := Snapshot();
      requested := [];
      while left != {}
        invariant Valid() && left <= tasks.Keys && cancelTasks == old(cancelTasks) + requested
        invariant AllPolled(was, Snapshot(), left, requested, connected, up)
        decreases |left|
      {
        var id :| id in left;
        ghost var now := Snapshot();
        ghost var asked := PollTask(id, connected(id), up(id));
        OneMorePolled(was, now, left, requested, connected, up, id, asked);
        AppendAssociates(old(cancelTasks), requested, asked);
        requested := requested + asked;
        left := left - {id};
      }
    }

    /** The first two parts of a tick: cancels before adds. */
    method DrainQueues()
      requires Valid() && |cancelTasks| < TWO_32 && |addTasks| < TWO_32
      modifies this`tasks, this`addTasks, this`addTaskCount, this`cancelTasks, this`cancelTaskCount
      ensures Valid() && addTasks == [] && cancelTasks == []
      ensures tasks == Registered(old(tasks) - SetOf(old(cancelTasks)), old(addTasks), TaskId)
      ensures forall t :: t in tasks.Values ==> t in old(tasks.Values) || t in old(addTasks)
    {
      ExecuteCancelTasks();
      ExecuteAddTasks();
      RegisteredFrom(old(tasks) - SetOf(old(cancelTasks)), old(addTasks));
    }

    /** A worker tick: cancels, then adds, then polls. Every task then in the map, kept or new, is
        polled once in the state it had at the start of the tick. */
    method ExecuteWorker(connected: string -> bool, up: string -> bool)
      returns (ghost before: map<string, Task>, ghost requested: seq<string>)
      requires Valid() && |cancelTasks| < TWO_32 && |addTasks| < TWO_32
      modifies this, tasks.Values, addTasks
      ensures Valid() && addTasks == [] && cancelTasks == requested
      ensures tasks == Registered(old(tasks) - SetOf(old(cancelTasks)), old(addTasks), TaskId)
      ensures AllPolled(before, Snapshot(), {}, requested, connected, up)
      ensures forall k :: k in before <==> k in tasks
      ensures forall t :: t in old(tasks.Values) && t.id in tasks && tasks[t.id] == t ==> before[t.id] == old(t.View())
      ensures forall t :: t in old(addTasks) && t.id in tasks && tasks[t.id] == t ==> before[t.id] == old(t.View())
    {
      DrainQueues();
      before := Snapshot();
      requested := ExecuteEventSubTasks(connected, up);
    }
  }

  lemma RegisteredFrom(tasks: map<string, EventSubTask>, queue: seq<EventSubTask>)
    ensures forall t :: t in Registered(tasks, queue, TaskId).Values ==> t in tasks.Values || t in queue
  {
    RegisteredIs(tasks, queue, TaskId);
    var m := Registered(tasks, queue, TaskId);
    forall k | k in m ensures m[k] in tasks.Values || m[k] in queue {
      if k !in tasks {
        assert TakenFromQueue(m, queue, TaskId, k);
      }
    }
  }
}
