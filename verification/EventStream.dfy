/** Theorems about whole runs of one task: what is delivered, in which order, and when it ends. */
module EventStream {
  import opened EventTypes
  import opened EventMatcher
  import opened EventTask

  // ---------- Window arithmetic ----------

  /** Two's complement wrap-around of the source's 64-bit arithmetic. */
  function Wrap(n: int): int {
    (n - INT64_MIN) % 0x1_0000_0000_0000_0000 + INT64_MIN
  }

  /** Addition of the source: it wraps around, and is exact where it does not overflow. */
  method Add64(a: int, b: int) returns (r: int)
    ensures IsInt64(r) && (IsInt64(a + b) ==> r == a + b)
  {
    return Wrap(a + b);
  }

  /** The window computed with the source's statements, every operation wrapping at 64 bits. */
  method OpenWindow(p: Params, cursor: int, limit: int, height: int) returns (r: Option<Window>)
    requires IsInt64(p.fromBlock) && IsInt64(p.toBlock) && -1 <= cursor <= INT64_MAX
    requires INT64_MIN < limit <= INT64_MAX && 0 <= height < INT64_MAX
    ensures r == WindowFor(p, cursor, limit, height)
    ensures r.Some? ==> r.value.end < INT64_MAX
  {
    var currentBlockNumber := cursor;
    if currentBlockNumber < 0 {
      currentBlockNumber := if p.fromBlock > 0 then p.fromBlock else height;
    }
    if height < currentBlockNumber {
      return None;
    }
    var bound := height;
    if p.toBlock > 0 && p.toBlock < bound {
      bound := p.toBlock;
    }
    var blockCanProcess := Add64(bound, -currentBlockNumber);
    blockCanProcess := Add64(blockCanProcess, 1);
    blockCanProcess := if blockCanProcess > limit then limit else blockCanProcess;
    var end := Add64(currentBlockNumber, blockCanProcess);
    end := Add64(end, -1);
    return Some(Window(currentBlockNumber, end));
  }

  /** A window is exactly the blocks from the origin that exist, are asked for and fit the limit. */
  lemma WindowArithmetic(p: Params, cursor: int, limit: int, height: int, x: int)
    requires cursor >= -1 && limit > 0 && height >= 0
    ensures var v := WindowFor(p, cursor, limit, height);
      var c := Origin(p, cursor, height);
      (v.Some? && v.value.next <= x <= v.value.end) <==>
      (c <= x <= height && (p.toBlock > 0 ==> x <= p.toBlock) && x < c + limit)
  {
  }

  // ---------- Every run ----------

  /** The entries that matching the blocks `bs`, in that order, hands to the callback. */
  ghost function DeliveredOver(w: World, group: string, p: Params, bs: seq<int>): seq<Entry> {
    if bs == [] then []
    else DeliveredOver(w, group, p, bs[..|bs| - 1]) + Delivered(p, w.chain(group, bs[|bs| - 1]))
  }

  ghost predicate StreamOfBlocks(w: World, t: Task) {
    Stream(t.history) == DeliveredOver(w, t.group, t.params, Blocks(t.history))
  }

  lemma StepKeepsStream(w: World, t: Task, a: Act)
    requires StreamOfBlocks(w, t)
    ensures StreamOfBlocks(w, Step(w, t, a).task)
  {
    StepKeepsIdentity(w, t, a);
    var added := StepHistory(w, t, a);
    if added == [] {
      assert Step(w, t, a).task.history == t.history;
    } else {
      assert t.history + added == t.history + [added[0]];
      HistoryGrows(t.history, added[0]);
      if added[0].Matched? {
        var bs := Blocks(t.history);
        assert (bs + [added[0].block])[..|bs|] == bs;
      } else {
        assert Blocks(t.history) + [] == Blocks(t.history);
        assert Stream(t.history) + [] == Stream(t.history);
      }
    }
  }

  /** In every run, the stream is the matcher's output over the blocks matched, in that order. */
  lemma {:induction false} StreamFollowsBlocks(w: World, id: string, group: string, p: Params, acts: seq<Act>)
    ensures var t := Exec(w, NewTask(id, group, p), acts);
      && t.id == id && t.group == group && t.params == p
      && Stream(t.history) == DeliveredOver(w, group, p, Blocks(t.history))
  {
    if acts != [] {
      var n := |acts| - 1;
      StreamFollowsBlocks(w, id, group, p, acts[..n]);
      var t := Exec(w, NewTask(id, group, p), acts[..n]);
      StepKeepsStream(w, t, acts[n]);
      StepKeepsIdentity(w, t, acts[n]);
    }
  }

  /** What matching block `b` should push: of each accepted log the one entry that tells of it, in order;
      nothing if the number of accepted logs is a multiple of 2^32. */
  ghost predicate RightlyPushed(p: Params, b: Block, es: seq<Entry>) {
    if |AcceptedPositions(p, b)| % TWO_32 == 0 then es == []
    else
      && StrictlyOrdered(es)
      && (forall e :: e in es <==> exists i: nat, j: nat :: AcceptedAt(p, b, i, j) && TellsOf(b, i, j, e))
      && (forall e :: e in es ==> Wanted(p, e))
  }

  lemma DeliveredIsRight(p: Params, b: Block)
    ensures RightlyPushed(p, b, Delivered(p, b))
  {
    EntriesCount(p, b);
    BlockMatchingIsFilter(p, b);
    forall e | e in BlockEntries(p, b) ensures Wanted(p, e) {
      var i: nat, j: nat :| AcceptedAt(p, b, i, j) && TellsOf(b, i, j, e);
      TruthfulIsWanted(p, b, e);
    }
  }

  ghost predicate AllDelivered(w: World, t: Task) {
    forall k :: 0 <= k < |t.history| && t.history[k].Matched? ==>
      t.history[k].entries == Delivered(t.params, w.chain(t.group, t.history[k].block))
  }

  lemma StepKeepsDelivered(w: World, t: Task, a: Act)
    requires AllDelivered(w, t)
    ensures AllDelivered(w, Step(w, t, a).task)
  {
    StepKeepsIdentity(w, t, a);
    var added := StepHistory(w, t, a);
  }

  lemma {:induction false} RunDelivers(w: World, t: Task, acts: seq<Act>)
    requires AllDelivered(w, t)
    ensures AllDelivered(w, Exec(w, t, acts))
  {
    hide Step;
    if acts != [] {
      RunDelivers(w, t, acts[..|acts| - 1]);
      StepKeepsDelivered(w, Exec(w, t, acts[..|acts| - 1]), acts[|acts| - 1]);
    }
  }

  /** In every run, each block matched pushed the right entries: one for each accepted log, which says of
      it what the chain says, and which the client asked for. */
  lemma PushedExact(w: World, id: string, group: string, p: Params, acts: seq<Act>, k: nat)
    requires var h := Exec(w, NewTask(id, group, p), acts).history; k < |h| && h[k].Matched?
    ensures var e := Exec(w, NewTask(id, group, p), acts).history[k];
      RightlyPushed(p, w.chain(group, e.block), e.entries)
  {
    RunDelivers(w, NewTask(id, group, p), acts);
    StreamFollowsBlocks(w, id, group, p, acts);
    DeliveredIsRight(p, w.chain(group, Exec(w, NewTask(id, group, p), acts).history[k].block));
  }

  /** No gaps under any interleaving: with a positive first block, every block from it up to the
      cursor, and up to the position of every live window, was matched. */
  lemma NoGapsAnyInterleaving(w: World, id: string, group: string, p: Params, acts: seq<Act>)
    requires p.fromBlock > 0
    ensures var t := Exec(w, NewTask(id, group, p), acts);
      && NoGaps(t)
      && (forall x :: p.fromBlock <= x < t.cursor ==> x in Blocks(t.history))
      && (forall v, x :: v in t.windows && p.fromBlock <= x < v.next ==> x in Blocks(t.history))
      && (forall b :: b in Blocks(t.history) ==> p.fromBlock <= b < t.cursor)
  {
    NewTaskInvariant(id, group, p);
    RunKeepsInvariant(w, NewTask(id, group, p), acts);
  }

  lemma NothingSeen(h: seq<Event>)
    ensures h != [] ==> Blocks(h) != [] || Complete in h
  {
    if h != [] {
      var e := h[|h| - 1];
      assert e in h;
    }
  }

  lemma BoundedTask(t: Task)
    requires Bounds(t) && t.params.toBlock > 0
    ensures t.cursor <= t.params.toBlock + 1
    ensures t.params.fromBlock > t.params.toBlock ==> t.cursor == -1 && t.history == []
  {
    if t.cursor >= 0 {
      assert BlockInRange(t.params, t.cursor - 1);
    } else {
      NothingSeen(t.history);
    }
  }

  /** A positive last block is never overrun, however windows overlap. */
  lemma NeverOverruns(w: World, id: string, group: string, p: Params, acts: seq<Act>)
    requires p.toBlock > 0
    ensures var t := Exec(w, NewTask(id, group, p), acts);
      && t.cursor <= p.toBlock + 1
      && (forall b :: b in Blocks(t.history) ==> b <= p.toBlock)
      && (p.fromBlock > p.toBlock ==> t.cursor == -1 && t.history == [])
  {
    NewTaskInvariant(id, group, p);
    RunKeepsInvariant(w, NewTask(id, group, p), acts);
    var t := Exec(w, NewTask(id, group, p), acts);
    BoundedTask(t);
    assert forall b :: b in Blocks(t.history) ==> BlockInRange(p, b);
  }

  ghost predicate Replied(acts: seq<Act>, height: int) {
    exists i :: 0 <= i < |acts| && acts[i].Height? && acts[i].height == height
  }

  /** Where a walk may begin: the first block asked for, or else some replied height. */
  ghost predicate Start(p: Params, acts: seq<Act>, n: int) {
    if p.fromBlock > 0 then n == p.fromBlock else Replied(acts, n)
  }

  /** The first block matched, or while there is none every live window, stands at a start. */
  ghost predicate Begun(p: Params, acts: seq<Act>, t: Task) {
    var bs := Blocks(t.history);
    && (bs == [] ==> forall v :: v in t.windows ==> Start(p, acts, v.next))
    && (bs != [] ==> Start(p, acts, bs[0]))
  }

  lemma StartLasts(p: Params, acts: seq<Act>, a: Act, n: int)
    requires Start(p, acts, n)
    ensures Start(p, acts + [a], n)
  {
    if p.fromBlock <= 0 {
      var i :| 0 <= i < |acts| && acts[i].Height? && acts[i].height == n;
      assert (acts + [a])[i] == acts[i];
    }
  }

  lemma BegunLasts(p: Params, acts: seq<Act>, a: Act, t: Task)
    requires Begun(p, acts, t)
    ensures Begun(p, acts + [a], t)
  {
    var bs := Blocks(t.history);
    if bs != [] {
      StartLasts(p, acts, a, bs[0]);
    } else {
      forall v | v in t.windows ensures Start(p, acts + [a], v.next) { StartLasts(p, acts, a, v.next); }
    }
  }

  lemma HeightBegun(limit: int, t: Task, acts: seq<Act>, height: int, up: bool)
    requires Bounds(t) && Begun(t.params, acts, t) && t.queries > 0 && Replied(acts, height)
    ensures Begun(t.params, acts, Answered(limit, t, height, up).task)
  {
    AnsweredEffect(limit, t, height, up);
    if Blocks(t.history) == [] {
      assert Start(t.params, acts, Origin(t.params, t.cursor, height));
    }
  }

  lemma StepBegun(w: World, t: Task, acts: seq<Act>, a: Act)
    requires Bounds(t) && Begun(t.params, acts, t) && a in acts
    ensures Begun(t.params, acts, Step(w, t, a).task)
  {
    if Enabled(t, a) {
      match a
      case Poll(_, _) => HistoryGrows(t.history, Complete);
      case HeightError =>
      case Height(h, up) => HeightBegun(w.limit, t, acts, h, up);
      case BlockError(i) => WithoutSubset(t.windows, i);
      case BlockOk(i, up) =>
        var entries := Delivered(t.params, w.chain(t.group, t.windows[i].next));
        AdvancedWindows(t, i, entries, up);
        AdvancedHistory(t, i, entries, up);
    }
  }

  /** In every run, the first block matched is the first block asked for, or else a replied height. */
  lemma {:induction false} StartIsAskedOrReplied(w: World, t0: Task, acts: seq<Act>)
    requires Invariant(t0) && t0.windows == [] && t0.history == []
    ensures Begun(t0.params, acts, Exec(w, t0, acts))
  {
    if acts != [] {
      var n := |acts| - 1;
      var t := Exec(w, t0, acts[..n]);
      StartIsAskedOrReplied(w, t0, acts[..n]);
      RunKeepsInvariant(w, t0, acts[..n]);
      BegunLasts(t0.params, acts[..n], acts[n], t);
      assert acts[..n] + [acts[n]] == acts && acts[n] in acts;
      StepBegun(w, t, acts, acts[n]);
    }
  }

  // ---------- Walks end ----------

  function Length(v: Window): int { v.end - v.next + 1 }

  /** The block replies that the live windows can still take. */
  ghost function WorkLeft(windows: seq<Window>): int {
    if windows == [] then 0
    else WorkLeft(windows[..|windows| - 1]) + Length(windows[|windows| - 1])
  }

  lemma WorkLeftGrows(windows: seq<Window>, v: Window)
    ensures WorkLeft(windows + [v]) == WorkLeft(windows) + Length(v)
  {
    assert (windows + [v])[..|windows|] == windows;
  }

  lemma {:induction false} WorkLeftShrinks(windows: seq<Window>, i: nat)
    requires i < |windows|
    ensures WorkLeft(Without(windows, i)) == WorkLeft(windows) - Length(windows[i])
  {
    var n := |windows| - 1;
    if i == n {
      assert Without(windows, i) == windows[..n];
    } else {
      WorkLeftShrinks(windows[..n], i);
      assert Without(windows, i) == Without(windows[..n], i) + [windows[n]];
      WorkLeftGrows(Without(windows[..n], i), windows[n]);
    }
  }

  lemma AdvancedWork(t: Task, i: nat, entries: seq<Entry>, up: bool)
    requires i < |t.windows| && t.windows[i].next <= t.windows[i].end
    ensures WorkLeft(Advanced(t, i, entries, up).task.windows) <= WorkLeft(t.windows) - 1
  {
    WorkLeftShrinks(t.windows, i);
    WorkLeftGrows(Without(t.windows, i), Window(t.windows[i].next + 1, t.windows[i].end));
  }

  lemma AnsweredWork(limit: int, t: Task, height: int, up: bool)
    requires t.queries > 0
    ensures WorkLeft(Answered(limit, t, height, up).task.windows) <= WorkLeft(t.windows) + Max(0, limit)
  {
    var v := WindowFor(t.params, t.cursor, limit, height);
    if v.Some? {
      WorkLeftGrows(t.windows, v.value);
    }
  }

  /** Matched blocks and work left, together. */
  ghost function Total(t: Task): int { |Blocks(t.history)| + WorkLeft(t.windows) }

  lemma BlockReplyWork(w: World, t: Task, a: Act)
    requires Bounds(t) && Enabled(t, a) && (a.BlockOk? || a.BlockError?)
    ensures var t' := Step(w, t, a).task;
      Total(t') <= Total(t) && WorkLeft(t'.windows) < WorkLeft(t.windows)
  {
    assert WindowOk(t.params, t.windows[a.index]);
    if a.BlockError? {
      WorkLeftShrinks(t.windows, a.index);
    } else {
      var entries := Delivered(t.params, w.chain(t.group, t.windows[a.index].next));
      AdvancedWork(t, a.index, entries, a.up);
      AdvancedHistory(t, a.index, entries, a.up);
    }
  }

  lemma PollWork(t: Task, connected: bool, up: bool)
    ensures Total(Polled(t, connected, up).task) == Total(t)
  {
    HistoryGrows(t.history, Complete);
  }

  /** Every block reply uses up work, a height reply adds at most one window of it. */
  lemma StepWork(w: World, t: Task, a: Act)
    requires Bounds(t)
    ensures var t' := Step(w, t, a).task;
      && Total(t') <= Total(t) + (if a.Height? then Max(0, w.limit) else 0)
      && ((a.BlockOk? || a.BlockError?) && Enabled(t, a) ==> WorkLeft(t'.windows) < WorkLeft(t.windows))
  {
    if Enabled(t, a) {
      match a
      case Poll(connected, up) => PollWork(t, connected, up);
      case HeightError =>
      case Height(h, up) =>
        AnsweredWork(w.limit, t, h, up);
        AnsweredEffect(w.limit, t, h, up);
      case BlockError(_) => BlockReplyWork(w, t, a);
      case BlockOk(_, _) => BlockReplyWork(w, t, a);
    }
    hide Polled, Answered, Failed, Advanced, Bounds, Blocks, WorkLeft;
  }

  ghost function HeightReplies(acts: seq<Act>): nat {
    if acts == [] then 0
    else HeightReplies(acts[..|acts| - 1]) + if acts[|acts| - 1].Height? then 1 else 0
  }

  /** In every run, a height reply leads to at most `limit` matched blocks: walks end, and what is
      matched and still to be fetched never exceeds the limit times the number of height replies. */
  lemma {:induction false} FetchesBounded(w: World, t0: Task, acts: seq<Act>)
    requires Invariant(t0) && t0.windows == [] && t0.history == []
    ensures var t := Exec(w, t0, acts);
      Total(t) <= Max(0, w.limit) * HeightReplies(acts)
  {
    if acts != [] {
      var n := |acts| - 1;
      FetchesBounded(w, t0, acts[..n]);
      RunKeepsInvariant(w, t0, acts[..n]);
      StepWork(w, Exec(w, t0, acts[..n]), acts[n]);
      MulNext(Max(0, w.limit), HeightReplies(acts[..n]));
    }
  }

  lemma MulNext(a: int, b: int)
    ensures a * (b + 1) == a * b + a
  {
  }

  // ---------- Exactly when no run has a gap ----------

  lemma Exec1(w: World, t: Task, acts: seq<Act>, a: Act)
    ensures Exec(w, t, acts + [a]) == Step(w, Exec(w, t, acts), a).task
  {
    assert (acts + [a])[..|acts|] == acts;
  }

  lemma TwoQueries(w: World, t0: Task) returns (acts: seq<Act>)
    requires t0 == NewTask(t0.id, t0.group, t0.params)
    ensures Exec(w, t0, acts) == t0.(queries := 2)
  {
    var q := Poll(true, true);
    Exec1(w, t0, [], q);
    Exec1(w, t0, [q], q);
    assert [] + [q] == [q];
    acts := [q] + [q];
  }

  lemma TwoWindows(w: World, t0: Task) returns (acts: seq<Act>)
    requires t0 == NewTask(t0.id, t0.group, t0.params) && t0.params.fromBlock <= 0 && t0.params.toBlock != 1 && w.limit > 0
    ensures Exec(w, t0, acts) == t0.(work := true, windows := [Window(2, 2), Window(0, 0)])
  {
    acts := TwoQueries(w, t0);
    Exec1(w, t0, acts, Height(2, true));
    acts := acts + [Height(2, true)];
    assert Exec(w, t0, acts) == t0.(queries := 1, work := true, windows := [Window(2, 2)]);
    Exec1(w, t0, acts, Height(0, true));
    acts := acts + [Height(0, true)];
  }

  lemma MatchZero(t: Task, entries: seq<Entry>)
    requires t.windows == [Window(2, 2), Window(0, 0)] && t.history == [] && t.cursor == -1
    ensures var t' := Advanced(t, 1, entries, true).task;
      t'.windows == [Window(2, 2)] && Blocks(t'.history) == [0] && t'.cursor == 1
  {
    AdvancedHistory(t, 1, entries, true);
    assert Without(t.windows, 1) == [Window(2, 2)];
  }

  lemma MatchTwo(t: Task, entries: seq<Entry>)
    requires t.windows == [Window(2, 2)] && Blocks(t.history) == [0] && t.cursor == 1
    ensures !NoGaps(Advanced(t, 0, entries, true).task)
  {
    AdvancedHistory(t, 0, entries, true);
    var bs := Blocks(Advanced(t, 0, entries, true).task.history);
    assert bs == [0, 2] && 1 !in bs;
  }

  /** Two outstanding height queries answered with 0 and 2: block 1 is skipped. */
  lemma GapRun(w: World, id: string, group: string, p: Params) returns (acts: seq<Act>)
    requires p.fromBlock <= 0 && p.toBlock != 1 && w.limit > 0
    ensures !NoGaps(Exec(w, NewTask(id, group, p), acts))
  {
    var t0 := NewTask(id, group, p);
    var two := TwoWindows(w, t0);
    var t1 := Exec(w, t0, two);
    Exec1(w, t0, two, BlockOk(1, true));
    MatchZero(t1, Delivered(p, w.chain(group, 0)));
    var t2 := Exec(w, t0, two + [BlockOk(1, true)]);
    Exec1(w, t0, two + [BlockOk(1, true)], BlockOk(0, true));
    MatchTwo(t2, Delivered(t2.params, w.chain(t2.group, 2)));
    acts := two + [BlockOk(1, true)] + [BlockOk(0, true)];
  }

  /** The property holds of all runs exactly when a positive first block is given, or the
      range ends at block 1 (two blocks leave no room for a gap). */
  lemma NoGapsExactly(w: World, id: string, group: string, p: Params)
    requires w.limit > 0
    ensures (forall acts :: NoGaps(Exec(w, NewTask(id, group, p), acts))) <==> p.fromBlock > 0 || p.toBlock == 1
  {
    if p.fromBlock > 0 || p.toBlock == 1 {
      forall acts ensures NoGaps(Exec(w, NewTask(id, group, p), acts)) {
        NewTaskInvariant(id, group, p);
        RunKeepsInvariant(w, NewTask(id, group, p), acts);
        var t := Exec(w, NewTask(id, group, p), acts);
        var bs := Blocks(t.history);
        if p.fromBlock <= 0 && bs != [] {
          assert bs[0] in bs && BlockInRange(p, bs[0]);
          assert t.cursor - 1 in bs && BlockInRange(p, t.cursor - 1);
        }
      }
    } else {
      var acts := GapRun(w, id, group, p);
    }
  }

  // ---------- Runs with at most one outstanding height query ----------

  /** At no point of the run is a second height query outstanding. */
  ghost predicate OneQuery(w: World, t: Task, acts: seq<Act>) {
    forall n :: 0 <= n <= |acts| ==> Exec(w, t, acts[..n]).queries <= 1
  }

  ghost function Range(a: int, b: int): seq<int>
    requires a <= b
  {
    seq(b - a, i => a + i)
  }

  /** The blocks matched are consecutive and end before the cursor; a live window stands at the cursor. */
  ghost predicate InOrder(cursor: int, windows: seq<Window>, bs: seq<int>) {
    && (bs == [] <==> cursor < 0)
    && (bs != [] ==> bs[0] <= cursor && bs == Range(bs[0], cursor))
    && (cursor >= 0 ==> forall v :: v in windows ==> v.next == cursor)
  }

  /** Only one walk or query is alive, and it keeps the worker from starting another. */
  ghost predicate Solo(t: Task) {
    && t.queries + |t.windows| <= 1
    && (t.windows != [] ==> t.work)
    && InOrder(t.cursor, t.windows, Blocks(t.history))
  }

  lemma RangeGrows(bs: seq<int>, b: int)
    requires bs != [] ==> bs[0] <= b && bs == Range(bs[0], b)
    ensures (bs + [b])[0] <= b + 1 && bs + [b] == Range((bs + [b])[0], b + 1)
  {
  }

  lemma InOrderAdvances(cursor: int, v: Window, bs: seq<int>, windows': seq<Window>)
    requires InOrder(cursor, [v], bs) && v.next >= 0
    requires forall u :: u in windows' ==> u == Window(v.next + 1, v.end)
    ensures InOrder(Max(cursor, v.next + 1), windows', bs + [v.next])
  {
    assert v in [v];
    RangeGrows(bs, v.next);
  }

  lemma SoloBlockOk(t: Task, entries: seq<Entry>, up: bool)
    requires Bounds(t) && Solo(t) && |t.windows| == 1
    ensures Solo(Advanced(t, 0, entries, up).task)
  {
    var v, t' := t.windows[0], Advanced(t, 0, entries, up).task;
    AdvancedHistory(t, 0, entries, up);
    assert WindowOk(t.params, v);
    assert t.windows == [v] && Without(t.windows, 0) == [];
    InOrderAdvances(t.cursor, v, Blocks(t.history), t'.windows);
    hide Blocks, InOrder, Bounds;
  }

  lemma SoloOpens(t: Task, t': Task, v: Option<Window>)
    requires Solo(t) && t.queries > 0
    requires t'.queries == t.queries - 1 && t'.cursor == t.cursor && t'.history == t.history
    requires t'.windows == t.windows || (v.Some? && t'.work && t'.windows == t.windows + [v.value])
    requires t.cursor >= 0 && v.Some? ==> v.value.next == t.cursor
    ensures Solo(t')
  {
    assert t.windows == [];
  }

  lemma SoloHeight(limit: int, t: Task, height: int, up: bool)
    requires Bounds(t) && Solo(t) && t.queries > 0
    ensures Solo(Answered(limit, t, height, up).task)
  {
    AnsweredEffect(limit, t, height, up);
    SoloOpens(t, Answered(limit, t, height, up).task, WindowFor(t.params, t.cursor, limit, height));
  }

  lemma StepKeepsSolo(w: World, t: Task, a: Act)
    requires Bounds(t) && Solo(t) && Step(w, t, a).task.queries <= 1
    ensures Solo(Step(w, t, a).task)
  {
    if Enabled(t, a) {
      match a
      case Poll(_, _) => HistoryGrows(t.history, Complete);
      case HeightError =>
      case Height(h, up) => SoloHeight(w.limit, t, h, up);
      case BlockError(i) => assert Without(t.windows, i) == [];
      case BlockOk(i, up) => SoloBlockOk(t, Delivered(t.params, w.chain(t.group, t.windows[0].next)), up);
    }
  }

  lemma OneQueryPrefix(w: World, t: Task, acts: seq<Act>)
    requires acts != [] && OneQuery(w, t, acts)
    ensures OneQuery(w, t, acts[..|acts| - 1]) && Exec(w, t, acts).queries <= 1
  {
    var prev := acts[..|acts| - 1];
    forall n | 0 <= n <= |prev| ensures Exec(w, t, prev[..n]).queries <= 1 {
      assert prev[..n] == acts[..n];
    }
    assert acts[..|acts|] == acts;
  }

  lemma {:induction false} RunIsSolo(w: World, t: Task, acts: seq<Act>)
    requires Invariant(t) && Solo(t) && OneQuery(w, t, acts)
    ensures Solo(Exec(w, t, acts))
  {
    if acts != [] {
      var prev := acts[..|acts| - 1];
      OneQueryPrefix(w, t, acts);
      RunIsSolo(w, t, prev);
      RunKeepsInvariant(w, t, prev);
      StepKeepsSolo(w, Exec(w, t, prev), acts[|acts| - 1]);
    }
  }

  // ---------- Stream refinement ----------

  /** The block's matches are not lost to the 32-bit count. */
  ghost predicate Countable(p: Params, b: Block) {
    |BlockEntries(p, b)| % TWO_32 == 0 ==> BlockEntries(p, b) == []
  }

  lemma RangeLast(a: int, b: int)
    requires a < b
    ensures Range(a, b) != [] && Range(a, b)[|Range(a, b)| - 1] == b - 1
    ensures Range(a, b)[..|Range(a, b)| - 1] == Range(a, b - 1)
  {
  }

  /** No block of `a..b-1` has its count wrap to zero. */
  ghost predicate AllCountable(w: World, group: string, p: Params, a: int, b: int) {
    forall x :: a <= x < b ==> Countable(p, w.chain(group, x))
  }

  lemma AllCountableLast(w: World, group: string, p: Params, a: int, b: int)
    requires a < b
    ensures AllCountable(w, group, p, a, b) <==>
      AllCountable(w, group, p, a, b - 1) && Countable(p, w.chain(group, b - 1))
  {
    if AllCountable(w, group, p, a, b - 1) && Countable(p, w.chain(group, b - 1)) {
      forall x | a <= x < b ensures Countable(p, w.chain(group, x)) {
        assert x < b - 1 || x == b - 1;
      }
    }
  }

  lemma DeliveredBlock(p: Params, b: Block)
    ensures Countable(p, b) ==> Delivered(p, b) == BlockEntries(p, b)
    ensures !Countable(p, b) ==> |Delivered(p, b)| < |BlockEntries(p, b)|
  {
  }

  lemma DeliveredLast(w: World, group: string, p: Params, a: int, b: int)
    requires a < b
    ensures DeliveredOver(w, group, p, Range(a, b)) ==
      DeliveredOver(w, group, p, Range(a, b - 1)) + Delivered(p, w.chain(group, b - 1))
  {
    RangeLast(a, b);
  }

  /** Delivering a range is filtering it exactly when no block's count wraps to zero. */
  lemma {:induction false} DeliveredIsFiltered(w: World, group: string, p: Params, a: int, b: int)
    requires a <= b
    ensures var d, f := DeliveredOver(w, group, p, Range(a, b)), Filtered(w, group, p, a, b);
      && (AllCountable(w, group, p, a, b) ==> d == f)
      && (!AllCountable(w, group, p, a, b) ==> |d| < |f|)
    decreases b - a
  {
    if a < b {
      DeliveredIsFiltered(w, group, p, a, b - 1);
      DeliveredLast(w, group, p, a, b);
      DeliveredBlock(p, w.chain(group, b - 1));
      AllCountableLast(w, group, p, a, b);
    }
  }

  /** The stream is the plain filter of blocks `a..b-1` exactly when no block's count wraps. */
  ghost predicate StreamsFilter(w: World, t: Task, a: int, b: int) {
    Stream(t.history) == Filtered(w, t.group, t.params, a, b) <==> AllCountable(w, t.group, t.params, a, b)
  }

  /** Stream refinement: with at most one outstanding height query, for any window limit, heights and
      failures, the blocks matched are start..cursor-1, each once and in order, and the concatenation
      of all pushes is the plain filter of those blocks, exactly when no block's count wraps. */
  lemma StreamRefinement(w: World, id: string, group: string, p: Params, acts: seq<Act>)
    requires OneQuery(w, NewTask(id, group, p), acts)
    ensures var t := Exec(w, NewTask(id, group, p), acts);
      var bs := Blocks(t.history);
      && (t.cursor < 0 ==> bs == [] && Stream(t.history) == [])
      && (t.cursor >= 0 ==>
            && bs != [] && Start(p, acts, bs[0]) && bs[0] <= t.cursor && bs == Range(bs[0], t.cursor)
            && StreamsFilter(w, t, bs[0], t.cursor))
  {
    var t0 := NewTask(id, group, p);
    NewTaskInvariant(id, group, p);
    RunKeepsInvariant(w, t0, acts);
    RunIsSolo(w, t0, acts);
    StreamFollowsBlocks(w, id, group, p, acts);
    StartIsAskedOrReplied(w, t0, acts);
    var t := Exec(w, t0, acts);
    if t.cursor >= 0 {
      DeliveredIsFiltered(w, group, p, Blocks(t.history)[0], t.cursor);
    }
  }

  /** Batching and retries do not show: two runs that stand at the same start and cursor have
      delivered the same stream, whatever their limits, heights, failures and retries were. */
  lemma BatchingInvisible(w: World, w': World, id: string, group: string, p: Params, acts: seq<Act>, acts': seq<Act>)
    requires w'.chain == w.chain
    requires OneQuery(w, NewTask(id, group, p), acts) && OneQuery(w', NewTask(id, group, p), acts')
    requires var t, t' := Exec(w, NewTask(id, group, p), acts), Exec(w', NewTask(id, group, p), acts');
      && t.cursor == t'.cursor >= 0
      && (p.fromBlock > 0 || (Blocks(t.history) != [] && Blocks(t'.history) != [] && Blocks(t.history)[0] == Blocks(t'.history)[0]))
    ensures Stream(Exec(w, NewTask(id, group, p), acts).history) == Stream(Exec(w', NewTask(id, group, p), acts').history)
  {
    StreamRefinement(w, id, group, p, acts);
    StreamRefinement(w', id, group, p, acts');
    StreamFollowsBlocks(w, id, group, p, acts);
    StreamFollowsBlocks(w', id, group, p, acts');
    SameDelivered(w, w', group, p, Blocks(Exec(w, NewTask(id, group, p), acts).history));
  }

  lemma {:induction false} SameDelivered(w: World, w': World, group: string, p: Params, bs: seq<int>)
    requires w'.chain == w.chain
    ensures DeliveredOver(w, group, p, bs) == DeliveredOver(w', group, p, bs)
  {
    if bs != [] {
      SameDelivered(w, w', group, p, bs[..|bs| - 1]);
    }
  }
}
