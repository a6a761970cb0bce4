/** One subscription task: the worker polls it, and ledger callbacks walk windows of blocks for it.

    Every handler is an atomic step of a state machine. Replies that the ledger still owes (height
    queries and block fetches) are part of the state, so replies may be lost, fail, or arrive in any
    order, and any number of them may be outstanding. */
module EventTask {
  import opened EventTypes
  import opened EventMatcher

  /** The chain of every group, and the number of blocks one window may hold. */
  datatype World = World(chain: (string, int) -> Block, limit: int)

  /** A walk over blocks `next..end`: the fetch of block `next` is outstanding. */
  datatype Window = Window(next: int, end: int)

  /** What the task's client sees, in order: a matched block with the entries handed to the callback
      (none: the callback was not called), or the completion notice. */
  datatype Event = Matched(block: int, entries: seq<Entry>) | Complete

  /** `abandoned`: some window ended because the task's group had vanished. */
  datatype Task = Task(id: string, group: string, params: Params, cursor: int, work: bool,
                       queries: nat, windows: seq<Window>, history: seq<Event>, abandoned: bool)

  function NewTask(id: string, group: string, params: Params): Task {
    Task(id, group, params, -1, false, 0, [], [], false)
  }

  /** Steps of one task. `connected` and `up` are the answers of the session and the group manager. */
  datatype Act =
    | Poll(connected: bool, up: bool)
    | HeightError
    | Height(height: int, up: bool)
    | BlockError(index: nat)
    | BlockOk(index: nat, up: bool)

  /** A task after a step, and whether the step put the task's id on the cancel queue. */
  datatype Outcome = Outcome(task: Task, cancel: bool)

  predicate Completed(t: Task) {
    t.params.toBlock >= 0 && t.cursor > t.params.toBlock
  }

  /** The first block of the next window. */
  function Origin(p: Params, cursor: int, height: int): int {
    if cursor >= 0 then cursor else if p.fromBlock > 0 then p.fromBlock else height
  }

  function Min(a: int, b: int): int { if a <= b then a else b }
  function Max(a: int, b: int): int { if a >= b then a else b }

  /** The window a height reply opens, if the chain has reached its first block. */
  function WindowFor(p: Params, cursor: int, limit: int, height: int): Option<Window> {
    var current := Origin(p, cursor, height);
    if height < current then None
    else
      var bound := if p.toBlock > 0 && p.toBlock < height then p.toBlock else height;
      Some(Window(current, current + Min(bound - current + 1, limit) - 1))
  }

  /** `RecursiveProcess::process`: fetch block `n` of a window ending at `end`, or finish. */
  function Process(t: Task, n: int, end: int, up: bool): Outcome {
    if n > end then Outcome(t.(work := false), false)
    else if !up then Outcome(t.(abandoned := true), true)
    else Outcome(t.(windows := t.windows + [Window(n, end)]), false)
  }

  function Without<T>(s: seq<T>, i: nat): seq<T>
    requires i < |s|
  {
    s[..i] + s[i + 1..]
  }

  /** The entries the callback receives for a block: nothing if the 32-bit count reads zero. */
  ghost function Delivered(p: Params, b: Block): seq<Entry> {
    if |BlockEntries(p, b)| % TWO_32 == 0 then [] else BlockEntries(p, b)
  }

  predicate Enabled(t: Task, a: Act) {
    match a
    case Poll(_, _) => true
    case HeightError => t.queries > 0
    case Height(h, _) => t.queries > 0 && 0 <= h < INT64_MAX
    case BlockError(i) => i < |t.windows|
    case BlockOk(i, _) => i < |t.windows|
  }

  function Polled(t: Task, connected: bool, up: bool): Outcome {
    if !connected then Outcome(t, true)
    else if Completed(t) then Outcome(t.(history := t.history + [Complete]), true)
    else if t.work then Outcome(t, false)
    else if !up then Outcome(t, true)
    else Outcome(t.(queries := t.queries + 1), false)
  }

  function Answered(limit: int, t: Task, height: int, up: bool): Outcome
    requires t.queries > 0
  {
    var t1 := t.(queries := t.queries - 1);
    match WindowFor(t.params, t.cursor, limit, height)
    case None => Outcome(t1, false)
    case Some(v) => Process(t1.(work := true), v.next, v.end, up)
  }

  function Failed(t: Task, i: nat): Outcome
    requires i < |t.windows|
  {
    Outcome(t.(windows := Without(t.windows, i), work := false), false)
  }

  /** The block arrived with `entries` to deliver: the cursor only moves forward, the walk goes on. */
  function Advanced(t: Task, i: nat, entries: seq<Entry>, up: bool): Outcome
    requires i < |t.windows|
  {
    var v := t.windows[i];
    var t1 := t.(windows := Without(t.windows, i),
                 history := t.history + [Matched(v.next, entries)],
                 cursor := Max(t.cursor, v.next + 1));
    Process(t1, v.next + 1, v.end, up)
  }

  /** One step; a step that is not enabled leaves the task alone. */
  ghost function Step(w: World, t: Task, a: Act): Outcome {
    if !Enabled(t, a) then Outcome(t, false) else
    match a
    case Poll(connected, up) => Polled(t, connected, up)
    case HeightError => Outcome(t.(queries := t.queries - 1), false)
    case Height(h, up) => Answered(w.limit, t, h, up)
    case BlockError(i) => Failed(t, i)
    case BlockOk(i, up) => Advanced(t, i, Delivered(t.params, w.chain(t.group, t.windows[i].next)), up)
  }

  /** The task after a whole sequence of steps. */
  ghost function Exec(w: World, t: Task, acts: seq<Act>): Task {
    if acts == [] then t
    else Step(w, Exec(w, t, acts[..|acts| - 1]), acts[|acts| - 1]).task
  }

  // ---------- Reading a history ----------

  /** The blocks matched so far, in order. */
  ghost function Blocks(h: seq<Event>): seq<int> {
    if h == [] then []
    else
      var e := h[|h| - 1];
      Blocks(h[..|h| - 1]) + if e.Matched? then [e.block] else []
  }

  /** The entries handed over so far, in order. */
  ghost function Stream(h: seq<Event>): seq<Entry> {
    if h == [] then []
    else
      var e := h[|h| - 1];
      Stream(h[..|h| - 1]) + if e.Matched? then e.entries else []
  }

  lemma HistoryGrows(h: seq<Event>, e: Event)
    ensures Blocks(h + [e]) == Blocks(h) + if e.Matched? then [e.block] else []
    ensures Stream(h + [e]) == Stream(h) + if e.Matched? then e.entries else []
  {
    assert (h + [e])[..|h|] == h;
  }

  /** The plain filter of the chain over blocks `a..b-1`. */
  ghost function Filtered(w: World, group: string, p: Params, a: int, b: int): seq<Entry>
    decreases b - a
  {
    if b <= a then [] else Filtered(w, group, p, a, b - 1) + BlockEntries(p, w.chain(group, b - 1))
  }

  ghost predicate Covered(bs: seq<int>, a: int, b: int) {
    forall x :: a <= x < b ==> x in bs
  }

  /** No block between the first one matched and the cursor was skipped. */
  ghost predicate NoGaps(t: Task) {
    var bs := Blocks(t.history);
    bs != [] ==> Covered(bs, bs[0], t.cursor)
  }

  // ---------- Invariants of every run ----------

  ghost predicate WindowOk(p: Params, v: Window) {
    && 0 <= v.next <= v.end
    && (p.fromBlock > 0 ==> p.fromBlock <= v.next)
    && (p.toBlock > 0 ==> v.end <= p.toBlock)
  }

  ghost predicate WindowsOk(p: Params, windows: seq<Window>) {
    forall v :: v in windows ==> WindowOk(p, v)
  }

  ghost predicate BlockInRange(p: Params, b: int) {
    0 <= b && (p.fromBlock > 0 ==> p.fromBlock <= b) && (p.toBlock > 0 ==> b <= p.toBlock)
  }

  /** The cursor is one past the highest block matched; all of these lie in the range asked for. */
  ghost predicate CursorOk(p: Params, cursor: int, bs: seq<int>) {
    && cursor >= -1
    && (cursor < 0 <==> bs == [])
    && (cursor >= 0 ==> cursor - 1 in bs)
    && (forall b :: b in bs ==> BlockInRange(p, b) && b < cursor)
  }

  /** Bounds on the cursor, on the live windows and on what was matched. */
  ghost predicate Bounds(t: Task) {
    && CursorOk(t.params, t.cursor, Blocks(t.history))
    && WindowsOk(t.params, t.windows)
    && (Complete in t.history ==> Completed(t))
  }

  /** A busy task has a live window or has lost its group. */
  ghost predicate NotStuck(t: Task) {
    t.work ==> t.windows != [] || t.abandoned
  }

  /** With a positive first block, everything behind the cursor and behind every window is matched. */
  ghost predicate GaplessAt(from: int, cursor: int, windows: seq<Window>, bs: seq<int>) {
    && Covered(bs, from, cursor)
    && (forall v :: v in windows ==> Covered(bs, from, v.next))
    && (bs != [] ==> bs[0] == from)
    && (bs == [] ==> forall v :: v in windows ==> v.next == from)
  }

  ghost predicate Gapless(t: Task) {
    GaplessAt(t.params.fromBlock, t.cursor, t.windows, Blocks(t.history))
  }

  /** Every completion notice comes after all blocks of the range. */
  ghost predicate CompleteLast(h: seq<Event>, p: Params) {
    forall k :: 0 <= k < |h| && h[k].Complete? ==> Covered(Blocks(h[..k]), p.fromBlock, p.toBlock + 1)
  }

  lemma WithoutSubset<T>(s: seq<T>, i: nat)
    requires i < |s|
    ensures forall x :: x in Without(s, i) ==> x in s
  {
  }

  lemma CursorAdvances(p: Params, cursor: int, bs: seq<int>, b: int)
    requires CursorOk(p, cursor, bs) && BlockInRange(p, b)
    ensures CursorOk(p, Max(cursor, b + 1), bs + [b])
  {
  }

  lemma OpenedWindowOk(p: Params, cursor: int, limit: int, height: int)
    requires cursor >= -1 && height >= 0
    requires cursor >= 0 && p.fromBlock > 0 ==> p.fromBlock <= cursor
    ensures var v := WindowFor(p, cursor, limit, height);
      v.Some? && v.value.next <= v.value.end ==> WindowOk(p, v.value)
  {
  }

  lemma AdvancedWindows(t: Task, i: nat, entries: seq<Entry>, up: bool)
    requires i < |t.windows|
    ensures var t', v := Advanced(t, i, entries, up).task, t.windows[i];
      v in t.windows && forall u :: u in t'.windows ==> u in t.windows || u == Window(v.next + 1, v.end)
  {
    WithoutSubset(t.windows, i);
  }

  lemma AdvancedHistory(t: Task, i: nat, entries: seq<Entry>, up: bool)
    requires i < |t.windows|
    ensures var t', v := Advanced(t, i, entries, up).task, t.windows[i];
      && Blocks(t'.history) == Blocks(t.history) + [v.next]
      && (Complete in t'.history <==> Complete in t.history)
      && t'.cursor == Max(t.cursor, v.next + 1)
  {
    HistoryGrows(t.history, Matched(t.windows[i].next, entries));
  }

  lemma WindowsAdvance(p: Params, windows: seq<Window>, v: Window, windows': seq<Window>)
    requires WindowsOk(p, windows) && v in windows && v.next < v.end
    requires forall u :: u in windows' ==> u in windows || u == Window(v.next + 1, v.end)
    ensures WindowsOk(p, windows')
  {
    assert WindowOk(p, v);
  }

  lemma BlockOkKeepsBounds(t: Task, i: nat, entries: seq<Entry>, up: bool)
    requires Bounds(t) && i < |t.windows|
    ensures Bounds(Advanced(t, i, entries, up).task)
  {
    var v, t' := t.windows[i], Advanced(t, i, entries, up).task;
    assert WindowOk(t.params, v);
    AdvancedHistory(t, i, entries, up);
    CursorAdvances(t.params, t.cursor, Blocks(t.history), v.next);
    WithoutSubset(t.windows, i);
    if v.next < v.end {
      AdvancedWindows(t, i, entries, up);
      WindowsAdvance(t.params, t.windows, v, t'.windows);
    }
  }

  /** What a height reply changes. */
  lemma AnsweredEffect(limit: int, t: Task, height: int, up: bool)
    requires t.queries > 0
    ensures var t', v := Answered(limit, t, height, up).task, WindowFor(t.params, t.cursor, limit, height);
      && t'.params == t.params && t'.queries == t.queries - 1 && t'.cursor == t.cursor && t'.history == t.history
      && (t'.windows == t.windows ||
          (v.Some? && t'.work && v.value.next <= v.value.end && t'.windows == t.windows + [v.value]))
  {
  }

  lemma HeightKeepsBounds(limit: int, t: Task, height: int, up: bool)
    requires Bounds(t) && t.queries > 0 && height >= 0
    ensures Bounds(Answered(limit, t, height, up).task)
  {
    if t.cursor >= 0 {
      assert BlockInRange(t.params, t.cursor - 1);
    }
    OpenedWindowOk(t.params, t.cursor, limit, height);
    AnsweredEffect(limit, t, height, up);
  }

  lemma StepKeepsBounds(w: World, t: Task, a: Act)
    requires Bounds(t)
    ensures Bounds(Step(w, t, a).task)
  {
    if Enabled(t, a) {
      match a
      case Poll(_, _) => HistoryGrows(t.history, Complete);
      case HeightError =>
      case Height(h, up) => HeightKeepsBounds(w.limit, t, h, up);
      case BlockError(i) => WithoutSubset(t.windows, i);
      case BlockOk(i, up) =>
        BlockOkKeepsBounds(t, i, Delivered(t.params, w.chain(t.group, t.windows[i].next)), up);
    }
  }

  lemma StepKeepsIdentity(w: World, t: Task, a: Act)
    ensures var t' := Step(w, t, a).task;
      t'.id == t.id && t'.group == t.group && t'.params == t.params && t.cursor <= t'.cursor
  {
  }

  lemma StepKeepsNotStuck(w: World, t: Task, a: Act)
    requires NotStuck(t)
    ensures NotStuck(Step(w, t, a).task)
    ensures Step(w, t, a).task.abandoned ==> t.abandoned || Step(w, t, a).cancel
  {
  }

  lemma CompleteLastGrows(h: seq<Event>, e: Event, p: Params)
    requires CompleteLast(h, p)
    requires e.Complete? ==> Covered(Blocks(h), p.fromBlock, p.toBlock + 1)
    ensures CompleteLast(h + [e], p)
  {
    forall k | 0 <= k < |h + [e]| && (h + [e])[k].Complete?
      ensures Covered(Blocks((h + [e])[..k]), p.fromBlock, p.toBlock + 1)
    {
      assert (h + [e])[..k] == if k < |h| then h[..k] else h;
    }
  }

  lemma GaplessAdvances(from: int, cursor: int, windows: seq<Window>, bs: seq<int>, v: Window)
    requires GaplessAt(from, cursor, windows, bs) && v in windows && from <= v.next
    requires cursor < 0 <==> bs == []
    ensures GaplessAt(from, Max(cursor, v.next + 1), windows, bs + [v.next])
    ensures Covered(bs + [v.next], from, v.next + 1)
  {
  }

  lemma GaplessStep(from: int, cursor: int, windows: seq<Window>, bs: seq<int>, v: Window, windows': seq<Window>)
    requires GaplessAt(from, cursor, windows, bs) && v in windows && from <= v.next
    requires cursor < 0 <==> bs == []
    requires forall u :: u in windows' ==> u in windows || u == Window(v.next + 1, v.end)
    ensures GaplessAt(from, Max(cursor, v.next + 1), windows', bs + [v.next])
  {
    GaplessAdvances(from, cursor, windows, bs, v);
  }

  lemma BlockOkKeepsGapless(t: Task, i: nat, entries: seq<Entry>, up: bool)
    requires Bounds(t) && t.params.fromBlock > 0 && Gapless(t) && i < |t.windows|
    ensures Gapless(Advanced(t, i, entries, up).task)
  {
    var v, bs, t' := t.windows[i], Blocks(t.history), Advanced(t, i, entries, up).task;
    AdvancedWindows(t, i, entries, up);
    AdvancedHistory(t, i, entries, up);
    assert WindowOk(t.params, v);
    GaplessStep(t.params.fromBlock, t.cursor, t.windows, bs, v, t'.windows);
  }

  lemma HeightKeepsGapless(limit: int, t: Task, height: int, up: bool)
    requires Bounds(t) && t.params.fromBlock > 0 && Gapless(t) && t.queries > 0
    ensures Gapless(Answered(limit, t, height, up).task)
  {
  }

  lemma StepKeepsGapless(w: World, t: Task, a: Act)
    requires Bounds(t) && t.params.fromBlock > 0 && Gapless(t)
    ensures Gapless(Step(w, t, a).task)
  {
    if Enabled(t, a) {
      match a
      case Poll(_, _) => HistoryGrows(t.history, Complete);
      case HeightError =>
      case Height(h, up) => HeightKeepsGapless(w.limit, t, h, up);
      case BlockError(i) => WithoutSubset(t.windows, i);
      case BlockOk(i, up) =>
        BlockOkKeepsGapless(t, i, Delivered(t.params, w.chain(t.group, t.windows[i].next)), up);
    }
  }

  /** A step appends at most one event, and a completion notice only to a completed task. */
  lemma StepHistory(w: World, t: Task, a: Act) returns (added: seq<Event>)
    ensures Step(w, t, a).task.history == t.history + added && |added| <= 1
    ensures added != [] && added[0].Complete? <==> a.Poll? && a.connected && Completed(t)
    ensures added != [] && added[0].Matched? <==> a.BlockOk? && Enabled(t, a)
    ensures added != [] && added[0].Matched? ==>
      added[0] == Matched(t.windows[a.index].next, Delivered(t.params, w.chain(t.group, t.windows[a.index].next)))
  {
    added := Step(w, t, a).task.history[|t.history|..];
  }

  lemma StepKeepsCompleteLast(w: World, t: Task, a: Act)
    requires Gapless(t) && CompleteLast(t.history, t.params)
    ensures CompleteLast(Step(w, t, a).task.history, t.params)
  {
    var added := StepHistory(w, t, a);
    if added == [] {
      assert Step(w, t, a).task.history == t.history;
    } else {
      CompleteLastGrows(t.history, added[0], t.params);
      assert t.history + added == t.history + [added[0]];
    }
  }

  ghost predicate Invariant(t: Task) {
    Bounds(t) && NotStuck(t) && (t.params.fromBlock > 0 ==> Gapless(t) && CompleteLast(t.history, t.params))
  }

  lemma StepKeepsInvariant(w: World, t: Task, a: Act)
    requires Invariant(t)
    ensures Invariant(Step(w, t, a).task) && Step(w, t, a).task.params == t.params
  {
    StepKeepsBounds(w, t, a);
    StepKeepsNotStuck(w, t, a);
    StepKeepsIdentity(w, t, a);
    if t.params.fromBlock > 0 {
      StepKeepsGapless(w, t, a);
      StepKeepsCompleteLast(w, t, a);
    }
  }

  lemma NewTaskInvariant(id: string, group: string, p: Params)
    ensures Invariant(NewTask(id, group, p))
  {
  }

  lemma {:induction false} RunKeepsInvariant(w: World, t: Task, acts: seq<Act>)
    requires Invariant(t)
    ensures Invariant(Exec(w, t, acts)) && Exec(w, t, acts).params == t.params
  {
    if acts != [] {
      RunKeepsInvariant(w, t, acts[..|acts| - 1]);
      StepKeepsInvariant(w, Exec(w, t, acts[..|acts| - 1]), acts[|acts| - 1]);
    }
  }
}
