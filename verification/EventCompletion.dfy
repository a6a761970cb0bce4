/** What a task does after its completion notice. */
module EventCompletion {
  import opened EventTypes
  import opened EventTask
  import opened EventStream

  /** No block is matched after a completion notice. */
  ghost predicate Quiet(h: seq<Event>) {
    forall i, j :: 0 <= i < j < |h| && h[i].Complete? ==> h[j].Complete?
  }

  /** Only this kind of subscription breaks the rule: last block 0 ends it as soon as one block is
      matched, but does not bound the window, and the window may hold a second block. */
  predicate Overruns(w: World, p: Params) {
    p.toBlock == 0 && 0 < p.fromBlock < INT64_MAX - 1 && w.limit >= 2
  }

  /** With last block 0 and no overrun, every window holds one block and none follows the first. */
  ghost predicate Short(t: Task) {
    && (t.cursor >= 0 ==> t.queries == 0 && t.windows == [])
    && (forall v :: v in t.windows ==> v.next == v.end)
  }

  lemma StepKeepsShort(w: World, t: Task, a: Act)
    requires t.params.toBlock == 0 && !Overruns(w, t.params) && Bounds(t) && Solo(t) && Short(t)
    ensures Short(Step(w, t, a).task)
  {
    if Enabled(t, a) {
      match a
      case Poll(_, _) =>
        if t.cursor >= 0 {
          assert BlockInRange(t.params, t.cursor - 1);
        }
      case HeightError =>
      case Height(_, _) =>
      case BlockError(i) => WithoutSubset(t.windows, i);
      case BlockOk(i, up) =>
        assert t.windows[i] in t.windows && Without(t.windows, i) == [];
    }
  }

  lemma CompletedIsIdle(t: Task)
    requires Bounds(t) && Solo(t) && (t.params.toBlock == 0 ==> Short(t))
    ensures Complete in t.history ==> t.windows == []
  {
    forall v | v in t.windows ensures Complete !in t.history {
      assert WindowOk(t.params, v);
    }
    assert t.windows != [] ==> t.windows[0] in t.windows;
  }

  lemma StepKeepsQuiet(w: World, t: Task, a: Act)
    requires Bounds(t) && Solo(t) && Quiet(t.history) && (t.params.toBlock == 0 ==> Short(t))
    ensures Quiet(Step(w, t, a).task.history)
  {
    var added := StepHistory(w, t, a);
    var h: seq<Event> := t.history;
    CompletedIsIdle(t);
    var h' := h + added;
    forall i, j | 0 <= i < j < |h'| && h'[i].Complete? ensures h'[j].Complete? {
      assert h'[i] in h;
    }
  }

  lemma {:induction false} RunIsQuiet(w: World, t: Task, acts: seq<Act>)
    requires Invariant(t) && Solo(t) && Quiet(t.history) && (t.params.toBlock == 0 ==> Short(t))
    requires OneQuery(w, t, acts) && !Overruns(w, t.params)
    ensures Quiet(Exec(w, t, acts).history) && (t.params.toBlock == 0 ==> Short(Exec(w, t, acts)))
  {
    if acts != [] {
      var prev, a := acts[..|acts| - 1], acts[|acts| - 1];
      OneQueryPrefix(w, t, acts);
      RunIsQuiet(w, t, prev);
      RunIsSolo(w, t, prev);
      RunKeepsInvariant(w, t, prev);
      var u := Exec(w, t, prev);
      StepKeepsQuiet(w, u, a);
      if t.params.toBlock == 0 {
        StepKeepsShort(w, u, a);
      }
    }
  }

  lemma OneQueryGrows(w: World, t: Task, acts: seq<Act>, a: Act)
    requires OneQuery(w, t, acts) && Step(w, Exec(w, t, acts), a).task.queries <= 1
    ensures OneQuery(w, t, acts + [a])
    ensures Exec(w, t, acts + [a]) == Step(w, Exec(w, t, acts), a).task
  {
    Exec1(w, t, acts, a);
    forall n | 0 <= n <= |acts + [a]| ensures Exec(w, t, (acts + [a])[..n]).queries <= 1 {
      assert (acts + [a])[..n] == if n <= |acts| then acts[..n] else acts + [a];
    }
  }

  /** The history ends with block `x` matched after a notice. */
  ghost predicate EndsLate(h: seq<Event>, x: int, entries: seq<Entry>) {
    h != [] && h[|h| - 1] == Matched(x, entries) && Complete in h
  }

  lemma EndsLateIsNotQuiet(h: seq<Event>, x: int, entries: seq<Entry>)
    requires EndsLate(h, x, entries)
    ensures !Quiet(h) && (entries != [] ==> !NoPushAfterNotice(h))
  {
    var i :| 0 <= i < |h| && h[i] == Complete;
    assert i < |h| - 1 && h[|h| - 1].Matched?;
  }

  /** The notice is out while the window up to `x` still stands at block `n`. */
  ghost predicate LateAt(t0: Task, t: Task, n: int, x: int) {
    && t.params == t0.params && t.group == t0.group && t.queries == 0 && t.cursor == n
    && t.windows == [Window(n, x)] && Complete in t.history
  }

  lemma LateStep(w: World, t0: Task, t: Task, n: int, x: int)
    requires LateAt(t0, t, n, x) && n <= x
    ensures var t' := Step(w, t, BlockOk(0, true)).task;
      && t'.queries == 0 && EndsLate(t'.history, n, Delivered(t0.params, w.chain(t0.group, n)))
      && (n < x ==> LateAt(t0, t', n + 1, x))
  {
    assert Without(t.windows, 0) == [];
  }

  lemma LateWalk(w: World, t0: Task, acts: seq<Act>, n: int, x: int) returns (acts': seq<Act>)
    requires OneQuery(w, t0, acts) && LateAt(t0, Exec(w, t0, acts), n, x) && n <= x
    ensures OneQuery(w, t0, acts')
    ensures EndsLate(Exec(w, t0, acts').history, x, Delivered(t0.params, w.chain(t0.group, x)))
    decreases x - n
  {
    LateStep(w, t0, Exec(w, t0, acts), n, x);
    OneQueryGrows(w, t0, acts, BlockOk(0, true));
    acts' := acts + [BlockOk(0, true)];
    if n < x {
      acts' := LateWalk(w, t0, acts', n + 1, x);
    }
  }

  /** The first block of a longer window is matched, which ends the subscription. */
  lemma FirstBlock(w: World, t0: Task, x: int) returns (acts: seq<Act>)
    requires t0 == NewTask(t0.id, t0.group, t0.params) && Overruns(w, t0.params)
    requires t0.params.fromBlock < x < t0.params.fromBlock + w.limit && x < INT64_MAX
    ensures OneQuery(w, t0, acts)
    ensures var t, from := Exec(w, t0, acts), t0.params.fromBlock;
      && t.params == t0.params && t.group == t0.group && t.queries == 0 && t.cursor == from + 1
      && t.windows == [Window(from + 1, x)]
  {
    var q, from := Poll(true, true), t0.params.fromBlock;
    acts := [];
    OneQueryGrows(w, t0, acts, q);
    acts := acts + [q];
    OneQueryGrows(w, t0, acts, Height(x, true));
    acts := acts + [Height(x, true)];
    var t := Exec(w, t0, acts);
    assert t.windows == [Window(from, x)] && Without(t.windows, 0) == [];
    OneQueryGrows(w, t0, acts, BlockOk(0, true));
    acts := acts + [BlockOk(0, true)];
  }

  lemma NoticeStep(w: World, t: Task)
    requires Completed(t)
    ensures Step(w, t, Poll(true, true)).task == t.(history := t.history + [Complete])
    ensures Complete in t.history + [Complete]
  {
  }

  lemma FirstNotice(w: World, t0: Task, x: int) returns (acts: seq<Act>)
    requires t0 == NewTask(t0.id, t0.group, t0.params) && Overruns(w, t0.params)
    requires t0.params.fromBlock < x < t0.params.fromBlock + w.limit && x < INT64_MAX
    ensures OneQuery(w, t0, acts) && LateAt(t0, Exec(w, t0, acts), t0.params.fromBlock + 1, x)
  {
    acts := FirstBlock(w, t0, x);
    NoticeStep(w, Exec(w, t0, acts));
    OneQueryGrows(w, t0, acts, Poll(true, true));
    acts := acts + [Poll(true, true)];
  }

  /** The notice is sent after the first block of a window, which then goes on to its end. */
  lemma OverrunningRun(w: World, id: string, group: string, p: Params, x: int) returns (acts: seq<Act>)
    requires Overruns(w, p) && p.fromBlock < x < p.fromBlock + w.limit && x < INT64_MAX
    ensures OneQuery(w, NewTask(id, group, p), acts)
    ensures EndsLate(Exec(w, NewTask(id, group, p), acts).history, x, Delivered(p, w.chain(group, x)))
  {
    acts := FirstNotice(w, NewTask(id, group, p), x);
    acts := LateWalk(w, NewTask(id, group, p), acts, p.fromBlock + 1, x);
  }

  /** With at most one outstanding height query, no block is matched after a completion notice in any
      run, exactly for the subscriptions that do not overrun. */
  lemma QuietExactly(w: World, id: string, group: string, p: Params)
    ensures (forall acts :: OneQuery(w, NewTask(id, group, p), acts) ==>
               Quiet(Exec(w, NewTask(id, group, p), acts).history))
            <==> !Overruns(w, p)
  {
    var t0 := NewTask(id, group, p);
    if Overruns(w, p) {
      var acts := OverrunningRun(w, id, group, p, p.fromBlock + 1);
      EndsLateIsNotQuiet(Exec(w, t0, acts).history, p.fromBlock + 1, Delivered(p, w.chain(group, p.fromBlock + 1)));
    } else {
      NewTaskInvariant(id, group, p);
      forall acts | OneQuery(w, t0, acts) ensures Quiet(Exec(w, t0, acts).history) {
        RunIsQuiet(w, t0, acts);
      }
    }
  }

  // ---------- Pushes after the notice, one query at a time ----------

  /** The callback receives no entries after a completion notice. */
  ghost predicate NoPushAfterNotice(h: seq<Event>) {
    forall i, j :: 0 <= i < j < |h| && h[i].Complete? && h[j].Matched? ==> h[j].entries == []
  }

  /** An overrunning subscription with something to push behind the first block of its one window. */
  ghost predicate PushesLate(w: World, group: string, p: Params) {
    Overruns(w, p) &&
    exists x :: p.fromBlock < x < p.fromBlock + w.limit && x < INT64_MAX && Delivered(p, w.chain(group, x)) != []
  }

  lemma NoPushGrows(h: seq<Event>, e: Event)
    requires NoPushAfterNotice(h) && (Complete in h && e.Matched? ==> e.entries == [])
    ensures NoPushAfterNotice(h + [e])
  {
    var h' := h + [e];
    forall i, j | 0 <= i < j < |h'| && h'[i].Complete? && h'[j].Matched? ensures h'[j].entries == [] {
      assert h'[i] in h;
    }
  }

  /** A step keeps the rule if blocks matched after the notice have nothing to push. */
  lemma StepKeepsNoPush(w: World, t: Task, a: Act)
    requires NoPushAfterNotice(t.history)
    requires a.BlockOk? && Enabled(t, a) && Complete in t.history ==>
      Delivered(t.params, w.chain(t.group, t.windows[a.index].next)) == []
    ensures NoPushAfterNotice(Step(w, t, a).task.history)
  {
    var added := StepHistory(w, t, a);
    if added == [] {
      assert Step(w, t, a).task.history == t.history;
    } else {
      NoPushGrows(t.history, added[0]);
      assert t.history + added == t.history + [added[0]];
    }
  }

  /** With last block 0, one window is opened, at the first block asked for. */
  ghost predicate OneWindow(w: World, t: Task) {
    && (t.cursor >= 0 ==> t.queries == 0)
    && forall v :: v in t.windows ==> v.end < t.params.fromBlock + w.limit && v.end < INT64_MAX
  }

  lemma BlockOkKeepsOneWindow(w: World, t: Task, i: nat, entries: seq<Entry>, up: bool)
    requires Solo(t) && OneWindow(w, t) && i < |t.windows|
    ensures OneWindow(w, Advanced(t, i, entries, up).task)
  {
    AdvancedWindows(t, i, entries, up);
  }

  lemma StepKeepsOneWindow(w: World, t: Task, a: Act)
    requires t.params.toBlock == 0 && t.params.fromBlock > 0 && Bounds(t) && Solo(t) && OneWindow(w, t)
    ensures OneWindow(w, Step(w, t, a).task)
  {
    if Enabled(t, a) {
      match a
      case Poll(_, _) =>
        if t.cursor >= 0 {
          assert BlockInRange(t.params, t.cursor - 1);
        }
      case HeightError =>
      case Height(h, up) => AnsweredEffect(w.limit, t, h, up);
      case BlockError(i) => WithoutSubset(t.windows, i);
      case BlockOk(i, up) =>
        BlockOkKeepsOneWindow(w, t, i, Delivered(t.params, w.chain(t.group, t.windows[i].next)), up);
    }
  }

  /** A block fetched after the notice lies behind the first block, in the same window. */
  lemma LateBlockIs(w: World, t: Task, i: nat)
    requires t.params.toBlock == 0 && t.params.fromBlock > 0 && Bounds(t) && Gapless(t) && Solo(t) && OneWindow(w, t)
    requires i < |t.windows| && Complete in t.history
    ensures var x := t.windows[i].next;
      t.params.fromBlock < x < t.params.fromBlock + w.limit && x < INT64_MAX
  {
    var v, bs := t.windows[i], Blocks(t.history);
    assert v in t.windows && WindowOk(t.params, v);
    assert bs[0] in bs;
  }

  lemma {:induction false} OverrunPushesNothing(w: World, t: Task, acts: seq<Act>)
    requires Overruns(w, t.params) && !PushesLate(w, t.group, t.params)
    requires Invariant(t) && Solo(t) && OneWindow(w, t) && NoPushAfterNotice(t.history) && OneQuery(w, t, acts)
    ensures var t' := Exec(w, t, acts); t'.group == t.group && OneWindow(w, t') && NoPushAfterNotice(t'.history)
  {
    if acts != [] {
      var prev, a := acts[..|acts| - 1], acts[|acts| - 1];
      OneQueryPrefix(w, t, acts);
      OverrunPushesNothing(w, t, prev);
      RunIsSolo(w, t, prev);
      RunKeepsInvariant(w, t, prev);
      var u := Exec(w, t, prev);
      StepKeepsOneWindow(w, u, a);
      StepKeepsIdentity(w, u, a);
      if a.BlockOk? && Enabled(u, a) && Complete in u.history {
        LateBlockIs(w, u, a.index);
      }
      StepKeepsNoPush(w, u, a);
    }
  }

  lemma QuietPushesNothing(h: seq<Event>)
    requires Quiet(h)
    ensures NoPushAfterNotice(h)
  {
  }

  /** With at most one outstanding height query, no push follows a completion notice in any run,
      exactly if the subscription does not overrun into a block with something to push. */
  lemma PushesEndExactly(w: World, id: string, group: string, p: Params)
    ensures (forall acts :: OneQuery(w, NewTask(id, group, p), acts) ==>
               NoPushAfterNotice(Exec(w, NewTask(id, group, p), acts).history))
            <==> !PushesLate(w, group, p)
  {
    var t0 := NewTask(id, group, p);
    NewTaskInvariant(id, group, p);
    if PushesLate(w, group, p) {
      var x :| p.fromBlock < x < p.fromBlock + w.limit && x < INT64_MAX && Delivered(p, w.chain(group, x)) != [];
      var acts := OverrunningRun(w, id, group, p, x);
      EndsLateIsNotQuiet(Exec(w, t0, acts).history, x, Delivered(p, w.chain(group, x)));
    } else {
      forall acts | OneQuery(w, t0, acts) ensures NoPushAfterNotice(Exec(w, t0, acts).history) {
        if Overruns(w, p) {
          OverrunPushesNothing(w, t0, acts);
        } else {
          RunIsQuiet(w, t0, acts);
          QuietPushesNothing(Exec(w, t0, acts).history);
        }
      }
    }
  }

  // ---------- Pushes after the notice, any number of queries ----------

  /** A subscription that can complete, and a block of its range with something to push. */
  ghost predicate CanPushLate(w: World, group: string, p: Params) {
    w.limit > 0 && 0 <= p.toBlock < INT64_MAX &&
    exists b :: BlockInRange(p, b) && b < INT64_MAX && Delivered(p, w.chain(group, b)) != []
  }

  /** Blocks stay below the largest height; without a positive limit there are no windows. */
  ghost predicate Below(w: World, t: Task) {
    && t.cursor <= INT64_MAX
    && forall v :: v in t.windows ==> w.limit > 0 && v.end < INT64_MAX
  }

  lemma StepKeepsBelow(w: World, t: Task, a: Act)
    requires Bounds(t) && Below(w, t)
    ensures Below(w, Step(w, t, a).task)
  {
    if Enabled(t, a) {
      match a
      case Poll(_, _) =>
      case HeightError =>
      case Height(h, up) => AnsweredEffect(w.limit, t, h, up);
      case BlockError(i) => WithoutSubset(t.windows, i);
      case BlockOk(i, up) =>
        var entries := Delivered(t.params, w.chain(t.group, t.windows[i].next));
        AdvancedWindows(t, i, entries, up);
        AdvancedHistory(t, i, entries, up);
        assert WindowOk(t.params, t.windows[i]);
    }
  }

  lemma {:induction false} NoLatePush(w: World, t: Task, acts: seq<Act>)
    requires !CanPushLate(w, t.group, t.params)
    requires Invariant(t) && Below(w, t) && NoPushAfterNotice(t.history)
    ensures var t' := Exec(w, t, acts); t'.group == t.group && Below(w, t') && NoPushAfterNotice(t'.history)
  {
    if acts != [] {
      var prev, a := acts[..|acts| - 1], acts[|acts| - 1];
      NoLatePush(w, t, prev);
      RunKeepsInvariant(w, t, prev);
      var u := Exec(w, t, prev);
      StepKeepsBelow(w, u, a);
      StepKeepsIdentity(w, u, a);
      if a.BlockOk? && Enabled(u, a) && Complete in u.history {
        assert u.windows[a.index] in u.windows && WindowOk(u.params, u.windows[a.index]);
        assert BlockInRange(u.params, u.windows[a.index].next);
      }
      StepKeepsNoPush(w, u, a);
    }
  }

  /** Task `t` has `q` queries outstanding and stands at `cursor` with the windows `held`. */
  ghost predicate Stands(t0: Task, t: Task, q: nat, cursor: int, held: seq<Window>) {
    t.params == t0.params && t.group == t0.group && t.queries == q && t.cursor == cursor && t.windows == held
  }

  lemma PollAsks(w: World, t: Task)
    requires t.cursor == -1 && !t.work
    ensures Step(w, t, Poll(true, true)).task == t.(queries := t.queries + 1)
  {
  }

  lemma {:induction false} ManyQueries(w: World, t0: Task, q: nat) returns (acts: seq<Act>)
    requires t0 == NewTask(t0.id, t0.group, t0.params)
    ensures Exec(w, t0, acts) == t0.(queries := q)
  {
    acts := [];
    if q > 0 {
      acts := ManyQueries(w, t0, q - 1);
      PollAsks(w, Exec(w, t0, acts));
      Exec1(w, t0, acts, Poll(true, true));
      acts := acts + [Poll(true, true)];
    }
  }

  /** A height reply of `c` where the next window starts at `c` opens a window of that one block. */
  lemma OpensOne(w: World, t0: Task, t: Task, q: nat, cursor: int, held: seq<Window>, c: int)
    requires Stands(t0, t, q, cursor, held) && q > 0 && w.limit > 0
    requires 0 <= c < INT64_MAX && Origin(t0.params, cursor, c) == c && (t0.params.toBlock > 0 ==> c <= t0.params.toBlock)
    ensures Stands(t0, Step(w, t, Height(c, true)).task, q - 1, cursor, held + [Window(c, c)])
  {
  }

  lemma MatchesLast(w: World, t0: Task, t: Task, q: nat, cursor: int, held: seq<Window>, c: int)
    requires Stands(t0, t, q, cursor, held + [Window(c, c)])
    ensures Stands(t0, Step(w, t, BlockOk(|held|, true)).task, q, Max(cursor, c + 1), held)
  {
    assert Without(held + [Window(c, c)], |held|) == held;
  }

  /** One more block matched, one query less, whatever windows are held open. */
  lemma OneBlock(w: World, t0: Task, acts: seq<Act>, q: nat, cursor: int, held: seq<Window>, c: int)
    returns (acts': seq<Act>)
    requires Stands(t0, Exec(w, t0, acts), q, cursor, held) && q > 0 && w.limit > 0
    requires 0 <= c < INT64_MAX && Origin(t0.params, cursor, c) == c && (t0.params.toBlock > 0 ==> c <= t0.params.toBlock)
    ensures Stands(t0, Exec(w, t0, acts'), q - 1, Max(cursor, c + 1), held)
  {
    OpensOne(w, t0, Exec(w, t0, acts), q, cursor, held, c);
    Exec1(w, t0, acts, Height(c, true));
    acts' := acts + [Height(c, true)];
    MatchesLast(w, t0, Exec(w, t0, acts'), q - 1, cursor, held, c);
    Exec1(w, t0, acts', BlockOk(|held|, true));
    acts' := acts' + [BlockOk(|held|, true)];
  }

  lemma {:induction false} WalkBlocks(w: World, t0: Task, acts: seq<Act>, q: nat, c: int, held: seq<Window>, n: int)
    returns (acts': seq<Act>)
    requires Stands(t0, Exec(w, t0, acts), q, c, held) && w.limit > 0
    requires 0 <= c <= n <= INT64_MAX && n - c <= q && (t0.params.toBlock > 0 ==> n - 1 <= t0.params.toBlock)
    ensures Stands(t0, Exec(w, t0, acts'), q - (n - c), n, held)
    decreases n - c
  {
    acts' := acts;
    if c < n {
      acts' := OneBlock(w, t0, acts, q, c, held, c);
      acts' := WalkBlocks(w, t0, acts', q - 1, c + 1, held, n);
    }
  }

  /** Up to block `b`, the next to be opened, with `q` queries left. */
  lemma Approach(w: World, t0: Task, b: int, q: nat) returns (acts: seq<Act>, cursor: int)
    requires t0 == NewTask(t0.id, t0.group, t0.params) && w.limit > 0 && BlockInRange(t0.params, b) && b < INT64_MAX
    ensures -1 <= cursor <= b && Origin(t0.params, cursor, b) == b
    ensures Stands(t0, Exec(w, t0, acts), q, cursor, [])
  {
    var from := t0.params.fromBlock;
    if 0 < from < b {
      acts := ManyQueries(w, t0, q + (b - from));
      acts := OneBlock(w, t0, acts, q + (b - from), -1, [], from);
      acts := WalkBlocks(w, t0, acts, q + (b - from) - 1, from + 1, [], b);
      cursor := b;
    } else {
      acts := ManyQueries(w, t0, q);
      cursor := -1;
    }
  }

  /** The range is finished while a second window on block `b` is still open. */
  lemma Overlap(w: World, t0: Task, b: int) returns (acts: seq<Act>, cursor: int)
    requires t0 == NewTask(t0.id, t0.group, t0.params) && w.limit > 0 && 0 <= t0.params.toBlock < INT64_MAX
    requires BlockInRange(t0.params, b) && b < INT64_MAX
    ensures cursor > t0.params.toBlock && Stands(t0, Exec(w, t0, acts), 0, cursor, [Window(b, b)])
  {
    var n := Max(t0.params.toBlock, b) + 1;
    var q := 2 + (n - (b + 1));
    acts, cursor := Approach(w, t0, b, q);
    OpensOne(w, t0, Exec(w, t0, acts), q, cursor, [], b);
    Exec1(w, t0, acts, Height(b, true));
    acts := acts + [Height(b, true)];
    assert [] + [Window(b, b)] == [Window(b, b)];
    acts := OneBlock(w, t0, acts, q - 1, cursor, [Window(b, b)], b);
    acts := WalkBlocks(w, t0, acts, q - 2, b + 1, [Window(b, b)], n);
    cursor := n;
  }

  /** Two overlapping queries: block `b` is matched again after the notice. */
  lemma OverlapPushesLate(w: World, id: string, group: string, p: Params, b: int) returns (acts: seq<Act>)
    requires w.limit > 0 && 0 <= p.toBlock < INT64_MAX && BlockInRange(p, b) && b < INT64_MAX
    ensures EndsLate(Exec(w, NewTask(id, group, p), acts).history, b, Delivered(p, w.chain(group, b)))
  {
    var t0, cursor := NewTask(id, group, p), 0;
    acts, cursor := Overlap(w, t0, b);
    var t := Exec(w, t0, acts);
    NoticeStep(w, t);
    Exec1(w, t0, acts, Poll(true, true));
    acts := acts + [Poll(true, true)];
    var t1 := Exec(w, t0, acts);
    Exec1(w, t0, acts, BlockOk(0, true));
    acts := acts + [BlockOk(0, true)];
    assert Exec(w, t0, acts).history == t1.history + [Matched(b, Delivered(p, w.chain(group, b)))];
  }

  /** No run whatever pushes after a completion notice, exactly if the subscription can never complete
      or no block of its range has anything to push. */
  lemma LatePushExactly(w: World, id: string, group: string, p: Params)
    ensures (forall acts :: NoPushAfterNotice(Exec(w, NewTask(id, group, p), acts).history)) <==> !CanPushLate(w, group, p)
  {
    var t0 := NewTask(id, group, p);
    NewTaskInvariant(id, group, p);
    if CanPushLate(w, group, p) {
      var b :| BlockInRange(p, b) && b < INT64_MAX && Delivered(p, w.chain(group, b)) != [];
      var acts := OverlapPushesLate(w, id, group, p, b);
      EndsLateIsNotQuiet(Exec(w, t0, acts).history, b, Delivered(p, w.chain(group, b)));
      assert !NoPushAfterNotice(Exec(w, t0, acts).history);
    } else {
      forall acts ensures NoPushAfterNotice(Exec(w, t0, acts).history) {
        NoLatePush(w, t0, acts);
      }
    }
  }

  /** Completion soundness, any interleaving: with a positive first block, every completion notice
      comes after all blocks of the range were matched. */
  lemma CompletionSound(w: World, id: string, group: string, p: Params, acts: seq<Act>, k: nat)
    requires p.fromBlock > 0
    requires k < |Exec(w, NewTask(id, group, p), acts).history|
    requires Exec(w, NewTask(id, group, p), acts).history[k].Complete?
    ensures var h := Exec(w, NewTask(id, group, p), acts).history;
      forall b :: p.fromBlock <= b <= p.toBlock ==> b in Blocks(h[..k])
    ensures p.toBlock > 0 ==> p.fromBlock <= p.toBlock
  {
    NewTaskInvariant(id, group, p);
    RunKeepsInvariant(w, NewTask(id, group, p), acts);
    var t := Exec(w, NewTask(id, group, p), acts);
    assert t.history[k] in t.history && Completed(t);
    assert BlockInRange(p, t.cursor - 1);
  }
}
