/** How a worker tick turns the queued requests into changes of the task map. The functions are
    generic in what identifies a task object. */
module EventQueues {

  ghost function SetOf<T>(q: seq<T>): set<T> { set x | x in q }

  ghost predicate Distinct<T>(q: seq<T>) {
    forall i, j :: 0 <= i < j < |q| ==> q[i] != q[j]
  }

  /** `executeAddTasks`: register in order; an id that is already taken is rejected. */
  function Registered<T>(tasks: map<string, T>, queue: seq<T>, id: T -> string): map<string, T> {
    if queue == [] then tasks
    else
      var m := Registered(tasks, queue[..|queue| - 1], id);
      var t := queue[|queue| - 1];
      if id(t) in m then m else m[id(t) := t]
  }

  /** `executeCancelTasks`: erase in order. */
  function Purged<T>(tasks: map<string, T>, ids: seq<string>): map<string, T> {
    if ids == [] then tasks
    else Purged(tasks, ids[..|ids| - 1]) - {ids[|ids| - 1]}
  }

  /** `queue[i]` is the first of the queue with its id. */
  ghost predicate FirstWithId<T>(queue: seq<T>, id: T -> string, i: nat) {
    i < |queue| && forall j :: 0 <= j < i ==> id(queue[j]) != id(queue[i])
  }

  /** Cancelling removes exactly the ids named, and nothing else changes. */
  lemma {:induction false} PurgedIs<T>(tasks: map<string, T>, ids: seq<string>)
    ensures Purged(tasks, ids) == tasks - SetOf(ids)
  {
    if ids != [] {
      PurgedIs(tasks, ids[..|ids| - 1]);
      assert SetOf(ids) == SetOf(ids[..|ids| - 1]) + {ids[|ids| - 1]};
    }
  }

  /** Id `k` is filed under the first of the queue that carries it. */
  ghost predicate TakenFromQueue<T>(m: map<string, T>, queue: seq<T>, id: T -> string, k: string) {
    exists i: nat :: FirstWithId(queue, id, i) && id(queue[i]) == k && k in m && m[k] == queue[i]
  }

  lemma {:induction false} RegisteredKnowsQueue<T>(tasks: map<string, T>, queue: seq<T>, id: T -> string)
    ensures var m := Registered(tasks, queue, id);
      && (forall k :: k in tasks ==> k in m && m[k] == tasks[k])
      && (forall i :: 0 <= i < |queue| ==> id(queue[i]) in m)
  {
    if queue != [] {
      var prev := queue[..|queue| - 1];
      RegisteredKnowsQueue(tasks, prev, id);
      assert forall i :: 0 <= i < |prev| ==> queue[i] == prev[i];
    }
  }

  lemma {:induction false} RegisteredTakesFirst<T>(tasks: map<string, T>, queue: seq<T>, id: T -> string, k: string)
    requires k in Registered(tasks, queue, id) && k !in tasks
    ensures TakenFromQueue(Registered(tasks, queue, id), queue, id, k)
  {
    var n := |queue| - 1;
    var prev, t := queue[..n], queue[n];
    var m0, m := Registered(tasks, prev, id), Registered(tasks, queue, id);
    if k in m0 {
      RegisteredTakesFirst(tasks, prev, id, k);
      var i: nat :| FirstWithId(prev, id, i) && id(prev[i]) == k && m0[k] == prev[i];
      assert FirstWithId(queue, id, i) && queue[i] == prev[i];
      assert m[k] == m0[k];
    } else {
      RegisteredKnowsQueue(tasks, prev, id);
      assert forall j :: 0 <= j < n ==> queue[j] == prev[j];
      assert FirstWithId(queue, id, n);
    }
  }

  /** Adding keeps every task that was there and, for each new id, takes the first of the queue. */
  lemma RegisteredIs<T>(tasks: map<string, T>, queue: seq<T>, id: T -> string)
    ensures var m := Registered(tasks, queue, id);
      && (forall k :: k in tasks ==> k in m && m[k] == tasks[k])
      && (forall k :: k in m && k !in tasks ==> TakenFromQueue(m, queue, id, k))
      && (forall t :: t in queue ==> id(t) in m)
  {
    RegisteredKnowsQueue(tasks, queue, id);
    forall k | k in Registered(tasks, queue, id) && k !in tasks
      ensures TakenFromQueue(Registered(tasks, queue, id), queue, id, k)
    {
      RegisteredTakesFirst(tasks, queue, id, k);
    }
  }

  /** The ids known afterwards are the old ones and those of the queue. */
  lemma RegisteredKeys<T>(tasks: map<string, T>, queue: seq<T>, id: T -> string)
    ensures forall k :: k in Registered(tasks, queue, id) <==> k in tasks || exists t :: t in queue && id(t) == k
  {
    RegisteredIs(tasks, queue, id);
    var m := Registered(tasks, queue, id);
    forall k | k in m && k !in tasks ensures exists t :: t in queue && id(t) == k {
      var i: nat :| FirstWithId(queue, id, i) && id(queue[i]) == k && m[k] == queue[i];
      assert queue[i] in queue;
    }
  }
}
