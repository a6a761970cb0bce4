/** Applying a filter to a log entry, a receipt and a block. */
module EventMatcher {
  import opened EventTypes

  /** What the filter means: the address is asked for, and each of the first four positions that
      asks for something is present in the log and holds one of the topics asked for. */
  ghost predicate Accepts(p: Params, log: LogEntry) {
    && (p.addresses == {} || log.address in p.addresses)
    && forall i :: 0 <= i < MAX_TOPICS && TopicsAt(p.topics, i) != {} ==>
         i < |log.topics| && log.topics[i] in TopicsAt(p.topics, i)
  }

  method MatchesLog(p: Params, log: LogEntry) returns (isMatch: bool)
    ensures isMatch <==> Accepts(p, log)
  {
    if p.addresses != {} && log.address !in p.addresses {
      return false;
    }
    isMatch := true;
    for i := 0 to MAX_TOPICS
      invariant isMatch
      invariant forall j :: 0 <= j < i && TopicsAt(p.topics, j) != {} ==>
                  j < |log.topics| && log.topics[j] in TopicsAt(p.topics, j)
    {
      if |p.topics| > i && p.topics[i] != {} && (|log.topics| <= i || log.topics[i] !in p.topics[i]) {
        assert TopicsAt(p.topics, i) != {};
        isMatch := false;
        break;
      }
    }
  }

  function Prefixed(hex: string): string { "0x" + hex }

  function PrefixedAll(topics: seq<string>): seq<string> {
    seq(|topics|, i requires 0 <= i < |topics| => Prefixed(topics[i]))
  }

  /** The push entry of log `j` of transaction `i`. */
  function EntryAt(b: Block, i: nat, j: nat): Entry
    requires i < |b.txs| && j < |b.txs[i].logs|
  {
    var tx, log := b.txs[i], b.txs[i].logs[j];
    Entry(tx.blockNumber, log.address, Prefixed(log.data), j, tx.txHash, i, PrefixedAll(log.topics))
  }

  /** The entries of the first `n` logs of transaction `i` that the filter accepts. */
  ghost function ReceiptEntries(p: Params, b: Block, i: nat, n: nat): seq<Entry>
    requires i < |b.txs| && n <= |b.txs[i].logs|
  {
    if n == 0 then []
    else ReceiptEntries(p, b, i, n - 1)
         + if Accepts(p, b.txs[i].logs[n - 1]) then [EntryAt(b, i, n - 1)] else []
  }

  /** The entries of the first `n` transactions that the filter accepts. */
  ghost function EntriesOf(p: Params, b: Block, n: nat): seq<Entry>
    requires n <= |b.txs|
  {
    if n == 0 then []
    else EntriesOf(p, b, n - 1) + ReceiptEntries(p, b, n - 1, |b.txs[n - 1].logs|)
  }

  ghost function BlockEntries(p: Params, b: Block): seq<Entry> {
    EntriesOf(p, b, |b.txs|)
  }

  /** Counting modulo 2^32 may wrap at any time. */
  lemma AddWrapped(a: nat, b: nat)
    ensures (a % TWO_32 + b) % TWO_32 == (a + b) % TWO_32
    ensures (a % TWO_32 + b % TWO_32) % TWO_32 == (a + b) % TWO_32
  {
  }

  lemma Appended<T>(a: seq<T>, b: seq<T>, c: seq<T>)
    ensures a + b + c == a + (b + c)
  {
  }

  /** The receipt overload: appends to `result` and counts modulo 2^32. */
  method MatchesReceipt(p: Params, b: Block, i: nat, result: seq<Entry>) returns (count: nat, result': seq<Entry>)
    requires i < |b.txs|
    ensures result' == result + ReceiptEntries(p, b, i, |b.txs[i].logs|)
    ensures count == |ReceiptEntries(p, b, i, |b.txs[i].logs|)| % TWO_32
    ensures forall k :: |result| <= k < |result'| ==> result'[k].txIndex == i && Truthful(p, b, result'[k])
  {
    count, result' := 0, result;
    var logs := b.txs[i].logs;
    for j := 0 to |logs|
      invariant result' == result + ReceiptEntries(p, b, i, j)
      invariant count == |ReceiptEntries(p, b, i, j)| % TWO_32
    {
      var m := MatchesLog(p, logs[j]);
      if m {
        ghost var before := ReceiptEntries(p, b, i, j);
        count := (count + 1) % TWO_32;
        result' := result' + [EntryAt(b, i, j)];
        AddWrapped(|before|, 1);
        Appended(result, before, [EntryAt(b, i, j)]);
      }
    }
    ReceiptSound(p, b, i, |logs|);
  }

  /** The block overload: the returned count is the number appended, modulo 2^32. */
  method MatchesBlock(p: Params, b: Block, result: seq<Entry>) returns (count: nat, result': seq<Entry>)
    ensures result' == result + BlockEntries(p, b)
    ensures count == |BlockEntries(p, b)| % TWO_32 == |AcceptedPositions(p, b)| % TWO_32
    ensures forall k :: |result| <= k < |result'| ==> Truthful(p, b, result'[k])
  {
    count, result' := 0, result;
    for n := 0 to |b.txs|
      invariant result' == result + EntriesOf(p, b, n)
      invariant count == |EntriesOf(p, b, n)| % TWO_32
    {
      ghost var before, added := EntriesOf(p, b, n), ReceiptEntries(p, b, n, |b.txs[n].logs|);
      var c;
      c, result' := MatchesReceipt(p, b, n, result');
      count := (count + c) % TWO_32;
      AddWrapped(|before|, |added|);
      Appended(result, before, added);
      assert EntriesOf(p, b, n + 1) == before + added;
    }
    EntriesSound(p, b, |b.txs|);
    EntriesCount(p, b);
  }

  // ---------- The declarative filter ----------

  ghost predicate Before(x: Entry, y: Entry) {
    x.txIndex < y.txIndex || (x.txIndex == y.txIndex && x.logIndex < y.logIndex)
  }

  ghost predicate StrictlyOrdered(es: seq<Entry>) {
    forall k, l :: 0 <= k < l < |es| ==> Before(es[k], es[l])
  }

  ghost predicate AcceptedAt(p: Params, b: Block, i: nat, j: nat) {
    i < |b.txs| && j < |b.txs[i].logs| && Accepts(p, b.txs[i].logs[j])
  }

  /** Entry `e` tells the client of log `j` of transaction `i`, field by field. */
  ghost predicate TellsOf(b: Block, i: nat, j: nat, e: Entry)
    requires i < |b.txs| && j < |b.txs[i].logs|
  {
    var tx, log := b.txs[i], b.txs[i].logs[j];
    && e.blockNumber == tx.blockNumber
    && e.address == log.address
    && e.data == "0x" + log.data
    && e.logIndex == j
    && e.txHash == tx.txHash
    && e.txIndex == i
    && |e.topics| == |log.topics|
    && forall k :: 0 <= k < |log.topics| ==> e.topics[k] == "0x" + log.topics[k]
  }

  /** The entry tells of an accepted log, at the indices it carries. */
  ghost predicate Truthful(p: Params, b: Block, e: Entry) {
    AcceptedAt(p, b, e.txIndex, e.logIndex) && TellsOf(b, e.txIndex, e.logIndex, e)
  }

  ghost predicate Sound(p: Params, b: Block, es: seq<Entry>) {
    forall k :: 0 <= k < |es| ==> Truthful(p, b, es[k])
  }

  lemma EntryAtTells(b: Block, i: nat, j: nat, e: Entry)
    requires i < |b.txs| && j < |b.txs[i].logs|
    ensures TellsOf(b, i, j, e) <==> e == EntryAt(b, i, j)
  {
    var log := b.txs[i].logs[j];
    if TellsOf(b, i, j, e) {
      assert e.topics == PrefixedAll(log.topics);
    }
  }

  lemma SoundTogether(p: Params, b: Block, es: seq<Entry>, fs: seq<Entry>)
    requires Sound(p, b, es) && Sound(p, b, fs) && StrictlyOrdered(es) && StrictlyOrdered(fs)
    requires forall k, l :: 0 <= k < |es| && 0 <= l < |fs| ==> Before(es[k], fs[l])
    ensures Sound(p, b, es + fs) && StrictlyOrdered(es + fs)
  {
  }

  lemma {:induction false} ReceiptSound(p: Params, b: Block, i: nat, n: nat)
    requires i < |b.txs| && n <= |b.txs[i].logs|
    ensures var es := ReceiptEntries(p, b, i, n);
      && Sound(p, b, es) && StrictlyOrdered(es)
      && forall k :: 0 <= k < |es| ==> es[k].txIndex == i && es[k].logIndex < n
  {
    hide Accepts;
    if n > 0 {
      ReceiptSound(p, b, i, n - 1);
      var last := if Accepts(p, b.txs[i].logs[n - 1]) then [EntryAt(b, i, n - 1)] else [];
      EntryAtTells(b, i, n - 1, EntryAt(b, i, n - 1));
      SoundTogether(p, b, ReceiptEntries(p, b, i, n - 1), last);
    }
  }

  lemma {:induction false} ReceiptComplete(p: Params, b: Block, i: nat, n: nat, j: nat)
    requires i < |b.txs| && n <= |b.txs[i].logs| && j < n && AcceptedAt(p, b, i, j)
    ensures EntryAt(b, i, j) in ReceiptEntries(p, b, i, n)
  {
    if j < n - 1 {
      ReceiptComplete(p, b, i, n - 1, j);
    }
  }

  lemma {:induction false} EntriesSound(p: Params, b: Block, n: nat)
    requires n <= |b.txs|
    ensures var es := EntriesOf(p, b, n);
      Sound(p, b, es) && StrictlyOrdered(es) && forall k :: 0 <= k < |es| ==> es[k].txIndex < n
  {
    hide Truthful, ReceiptEntries;
    if n > 0 {
      EntriesSound(p, b, n - 1);
      ReceiptSound(p, b, n - 1, |b.txs[n - 1].logs|);
      SoundTogether(p, b, EntriesOf(p, b, n - 1), ReceiptEntries(p, b, n - 1, |b.txs[n - 1].logs|));
    }
  }

  lemma {:induction false} EntriesComplete(p: Params, b: Block, n: nat, i: nat, j: nat)
    requires n <= |b.txs| && i < n && AcceptedAt(p, b, i, j)
    ensures EntryAt(b, i, j) in EntriesOf(p, b, n)
  {
    if i < n - 1 {
      EntriesComplete(p, b, n - 1, i, j);
    } else {
      ReceiptComplete(p, b, i, |b.txs[i].logs|, j);
    }
  }

  /** Block matching is exactly the declarative filter: the entries are those that tell of an accepted
      log, all of them, each once, in strictly increasing (transaction, log) order. */
  lemma BlockMatchingIsFilter(p: Params, b: Block)
    ensures var es := BlockEntries(p, b);
      && StrictlyOrdered(es)
      && (forall e :: e in es <==> exists i: nat, j: nat :: AcceptedAt(p, b, i, j) && TellsOf(b, i, j, e))
      && (forall k, l :: 0 <= k < l < |es| ==> es[k] != es[l])
  {
    EntriesSound(p, b, |b.txs|);
    var es := BlockEntries(p, b);
    forall i: nat, j: nat, e | AcceptedAt(p, b, i, j) && TellsOf(b, i, j, e) ensures e in es {
      EntryAtTells(b, i, j, e);
      EntriesComplete(p, b, |b.txs|, i, j);
    }
    forall e | e in es ensures exists i: nat, j: nat :: AcceptedAt(p, b, i, j) && TellsOf(b, i, j, e) {
      var k :| 0 <= k < |es| && es[k] == e;
      assert Truthful(p, b, es[k]);
    }
    forall k, l | 0 <= k < l < |es| ensures es[k] != es[l] {
      assert Before(es[k], es[l]);
    }
  }

  // ---------- What the client sees ----------

  /** The entry is one that the filter asks for, judged by the entry alone: its address is asked for, and
      at each of the first four positions that asks for something it carries a topic asked for. */
  ghost predicate Wanted(p: Params, e: Entry) {
    && (p.addresses == {} || e.address in p.addresses)
    && forall i :: 0 <= i < MAX_TOPICS && TopicsAt(p.topics, i) != {} ==>
         i < |e.topics| && "0x" <= e.topics[i] && e.topics[i][2..] in TopicsAt(p.topics, i)
  }

  lemma TruthfulIsWanted(p: Params, b: Block, e: Entry)
    requires Truthful(p, b, e)
    ensures Wanted(p, e)
  {
    var log := b.txs[e.txIndex].logs[e.logIndex];
    forall i | 0 <= i < MAX_TOPICS && TopicsAt(p.topics, i) != {}
      ensures i < |e.topics| && "0x" <= e.topics[i] && e.topics[i][2..] in TopicsAt(p.topics, i)
    {
      assert e.topics[i] == "0x" + log.topics[i];
      assert e.topics[i][2..] == log.topics[i];
    }
  }

  /** Where the accepted logs of a block stand. */
  ghost function AcceptedPositions(p: Params, b: Block): set<(nat, nat)> {
    set i: nat, j: nat | i < |b.txs| && j < |b.txs[i].logs| && Accepts(p, b.txs[i].logs[j]) :: (i, j)
  }

  ghost function PositionsOf(es: seq<Entry>): set<(nat, nat)> {
    set k | 0 <= k < |es| :: (es[k].txIndex, es[k].logIndex)
  }

  lemma {:induction false} OnePositionEach(es: seq<Entry>)
    requires StrictlyOrdered(es)
    ensures |PositionsOf(es)| == |es|
  {
    if es != [] {
      var n := |es| - 1;
      var x := (es[n].txIndex, es[n].logIndex);
      OnePositionEach(es[..n]);
      assert PositionsOf(es) == PositionsOf(es[..n]) + {x};
      assert x !in PositionsOf(es[..n]) by {
        forall k | 0 <= k < n ensures (es[..n][k].txIndex, es[..n][k].logIndex) != x {
          assert Before(es[k], es[n]);
        }
      }
    }
  }

  /** There are as many entries as accepted logs. */
  lemma EntriesCount(p: Params, b: Block)
    ensures |BlockEntries(p, b)| == |AcceptedPositions(p, b)|
  {
    var es := BlockEntries(p, b);
    EntriesSound(p, b, |b.txs|);
    OnePositionEach(es);
    forall i: nat, j: nat ensures (i, j) in PositionsOf(es) <==> (i, j) in AcceptedPositions(p, b) {
      if (i, j) in AcceptedPositions(p, b) {
        EntriesComplete(p, b, |b.txs|, i, j);
        var k :| 0 <= k < |es| && es[k] == EntryAt(b, i, j);
      }
      if (i, j) in PositionsOf(es) {
        var k :| 0 <= k < |es| && (es[k].txIndex, es[k].logIndex) == (i, j);
        assert Truthful(p, b, es[k]);
      }
    }
    assert PositionsOf(es) == AcceptedPositions(p, b);
  }

  // ---------- When two filters mean the same ----------

  /** The two filters accept exactly the same log entries. */
  ghost predicate SameMeaning(p: Params, q: Params) {
    forall log :: Accepts(p, log) <==> Accepts(q, log)
  }

  /** The number of topics a log entry needs: one past the last of the first four positions that asks
      for something. */
  function Reach(p: Params): nat {
    if TopicsAt(p.topics, 3) != {} then 4
    else if TopicsAt(p.topics, 2) != {} then 3
    else if TopicsAt(p.topics, 1) != {} then 2
    else if TopicsAt(p.topics, 0) != {} then 1
    else 0
  }

  /** Position `i` asks for nothing or for `topic`. */
  predicate Allows(p: Params, i: nat, topic: Topic) {
    TopicsAt(p.topics, i) == {} || topic in TopicsAt(p.topics, i)
  }

  /** Position `i` asks for something, but for no text that is a topic. */
  ghost predicate Unmeetable(p: Params, i: nat) {
    TopicsAt(p.topics, i) != {} && forall t: Topic :: t !in TopicsAt(p.topics, i)
  }

  ghost predicate Unsatisfiable(p: Params) {
    exists i: nat :: i < MAX_TOPICS && Unmeetable(p, i)
  }

  /** The two filters ask for the same addresses, need equally many topics, and allow the same topics
      at each position below four. */
  ghost predicate SameTables(p: Params, q: Params) {
    && p.addresses == q.addresses
    && Reach(p) == Reach(q)
    && forall i: nat, t: Topic :: i < MAX_TOPICS ==> (Allows(p, i, t) <==> Allows(q, i, t))
  }

  /** Acceptance, read off the number of topics needed and the topics allowed. */
  lemma AcceptsIs(p: Params, log: LogEntry)
    ensures Accepts(p, log) <==>
      && (p.addresses == {} || log.address in p.addresses)
      && Reach(p) <= |log.topics|
      && forall i: nat :: i < MAX_TOPICS && i < |log.topics| ==> Allows(p, i, log.topics[i])
  {
  }

  ghost function PickTopic(s: set<string>): (t: Topic)
    ensures (exists x: Topic :: x in s) ==> t in s
  {
    if x: Topic :| x in s then x else ZERO_TOPIC
  }

  ghost function PickAddress(s: set<string>): (t: string)
    ensures s != {} ==> t in s
  {
    if s == {} then "" else var x :| x in s; x
  }

  /** A log entry of `n` topics with a free address and a free topic at position `at`. */
  ghost function Fitting(p: Params, address: string, n: nat, at: nat, topic: Topic): (log: LogEntry)
    ensures |log.topics| == n && log.address == address
    ensures forall i :: 0 <= i < n ==> log.topics[i] == if i == at then topic else PickTopic(TopicsAt(p.topics, i))
  {
    LogEntry(address, seq(n, i requires 0 <= i < n => if i == at then topic else PickTopic(TopicsAt(p.topics, i))), "")
  }

  lemma FittingAccepted(p: Params, address: string, n: nat, at: nat, topic: Topic)
    requires !Unsatisfiable(p) && Reach(p) <= n && (p.addresses == {} || address in p.addresses)
    requires at < MAX_TOPICS ==> Allows(p, at, topic)
    ensures Accepts(p, Fitting(p, address, n, at, topic))
  {
    var log := Fitting(p, address, n, at, topic);
    forall i: nat | i < MAX_TOPICS && i < n ensures Allows(p, i, log.topics[i]) {
      assert !Unmeetable(p, i);
    }
    AcceptsIs(p, log);
  }

  /** A filter accepts no log entry at all exactly when one of the first four positions asks only for
      texts that are no topics. */
  lemma UnsatisfiableExactly(p: Params)
    ensures Unsatisfiable(p) <==> forall log :: !Accepts(p, log)
  {
    if !Unsatisfiable(p) {
      FittingAccepted(p, PickAddress(p.addresses), MAX_TOPICS, MAX_TOPICS, ZERO_TOPIC);
    }
  }

  ghost function Fresh(s: set<string>): (t: string)
    ensures t !in s
  {
    FreshExists(s);
    var t :| t !in s;
    t
  }

  ghost function Longest(s: set<string>): (n: nat)
    ensures forall t :: t in s ==> |t| <= n
  {
    if s == {} then 0
    else
      var x :| x in s;
      var m := Longest(s - {x});
      if |x| > m then |x| else m
  }

  lemma FreshExists(s: set<string>)
    ensures exists t :: t !in s
  {
    var t := seq(Longest(s) + 1, _ => 'a');
    assert |t| > Longest(s);
    assert t !in s;
  }

  ghost predicate Implies(p: Params, q: Params) {
    forall log :: Accepts(p, log) ==> Accepts(q, log)
  }

  lemma NarrowerAddresses(p: Params, q: Params)
    requires !Unsatisfiable(p) && Implies(p, q)
    ensures q.addresses != {} ==> p.addresses != {} && p.addresses <= q.addresses
  {
    if q.addresses != {} && (p.addresses == {} || !(p.addresses <= q.addresses)) {
      var a := Fresh(q.addresses);
      if p.addresses != {} {
        a :| a in p.addresses && a !in q.addresses;
      }
      FittingAccepted(p, a, MAX_TOPICS, MAX_TOPICS, ZERO_TOPIC);
      assert false;
    }
  }

  /** If all logs that `p` accepts, and there are some, are accepted by `q`, then `q` needs no more
      topics than `p` and allows at each position what `p` allows there. */
  lemma NarrowerTopics(p: Params, q: Params)
    requires !Unsatisfiable(p) && Implies(p, q)
    ensures Reach(q) <= Reach(p)
    ensures forall i: nat, t: Topic :: i < MAX_TOPICS && Allows(p, i, t) ==> Allows(q, i, t)
  {
    var a := PickAddress(p.addresses);
    FittingAccepted(p, a, Reach(p), MAX_TOPICS, ZERO_TOPIC);
    AcceptsIs(q, Fitting(p, a, Reach(p), MAX_TOPICS, ZERO_TOPIC));
    forall i: nat, t: Topic | i < MAX_TOPICS && Allows(p, i, t) ensures Allows(q, i, t) {
      FittingAccepted(p, a, MAX_TOPICS, i, t);
      AcceptsIs(q, Fitting(p, a, MAX_TOPICS, i, t));
    }
  }

  lemma SameTablesSameMeaning(p: Params, q: Params)
    requires SameTables(p, q)
    ensures SameMeaning(p, q)
  {
    forall log ensures Accepts(p, log) <==> Accepts(q, log) {
      AcceptsIs(p, log);
      AcceptsIs(q, log);
    }
  }

  /** Two filters accept the same logs exactly when both accept none, or they agree on the addresses,
      on the number of topics needed and on the topics allowed at each position below four. */
  lemma MeaningIsTables(p: Params, q: Params)
    ensures SameMeaning(p, q) <==> (Unsatisfiable(p) && Unsatisfiable(q)) || SameTables(p, q)
  {
    UnsatisfiableExactly(p);
    UnsatisfiableExactly(q);
    if SameMeaning(p, q) && !Unsatisfiable(p) {
      NarrowerAddresses(p, q);
      NarrowerAddresses(q, p);
      NarrowerTopics(p, q);
      NarrowerTopics(q, p);
    } else if SameTables(p, q) {
      SameTablesSameMeaning(p, q);
    }
  }

  lemma {:induction false} SameReceiptEntries(p: Params, q: Params, b: Block, i: nat, n: nat)
    requires SameMeaning(p, q) && i < |b.txs| && n <= |b.txs[i].logs|
    ensures ReceiptEntries(p, b, i, n) == ReceiptEntries(q, b, i, n)
  {
    if n > 0 {
      SameReceiptEntries(p, q, b, i, n - 1);
    }
  }

  lemma {:induction false} SameEntriesOf(p: Params, q: Params, b: Block, n: nat)
    requires SameMeaning(p, q) && n <= |b.txs|
    ensures EntriesOf(p, b, n) == EntriesOf(q, b, n)
  {
    if n > 0 {
      SameEntriesOf(p, q, b, n - 1);
      SameReceiptEntries(p, q, b, n - 1, |b.txs[n - 1].logs|);
    }
  }

  /** Filters with the same meaning select the same entries of every block. */
  lemma SameMeaningSameEntries(p: Params, q: Params, b: Block)
    requires SameMeaning(p, q)
    ensures BlockEntries(p, b) == BlockEntries(q, b)
  {
    SameEntriesOf(p, q, b, |b.txs|);
  }
}
