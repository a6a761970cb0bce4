/** Printing and parsing a subscription request, at the level of JSON values. */
module EventRequest {
  import opened EventTypes
  import opened EventMatcher
  import opened EventParsing

  // ---------- The parser ----------

  /** The table while position `|ts|` is being filled with the topics `s`. */
  function Filling(ts: seq<set<string>>, s: set<string>): seq<set<string>> {
    if |ts| >= MAX_TOPICS then Table(ts) else if s == {} then Trimmed(ts) else ts + [s]
  }

  lemma FillingStarts(ts: seq<set<string>>)
    ensures Filling(ts, {}) == Table(ts)
  {
  }

  lemma FillingGrows(ts: seq<set<string>>, s: set<string>, topic: string)
    ensures WithTopic(Filling(ts, s), |ts|, topic) == Filling(ts, s + {topic})
  {
    if |ts| < MAX_TOPICS {
      ResizeTrimmed(ts);
      assert Resize(ts + [s], |ts| + 1) == ts + [s];
    }
  }

  lemma FillingEnds(ts: seq<set<string>>, s: set<string>)
    ensures Filling(ts, s) == Table(ts + [s])
  {
    if |ts| < MAX_TOPICS {
      TrimmedAppend(ts, s);
    } else {
      assert (ts + [s])[..MAX_TOPICS] == ts[..MAX_TOPICS];
      assert |ts| == MAX_TOPICS ==> ts[..MAX_TOPICS] == ts;
    }
  }

  /** A position that is a single text. */
  lemma TextFills(ts: seq<set<string>>, topic: string)
    ensures WithTopic(Table(ts), |ts|, topic) == Table(ts + [{topic}])
  {
    FillingStarts(ts);
    FillingGrows(ts, {}, topic);
    assert {} + {topic} == {topic};
    FillingEnds(ts, {topic});
  }

  lemma PositionsGrow(js: seq<Json>, n: nat)
    requires n < |js| && Positions(js[..n]).Some?
    ensures Positions(js[..n + 1]) ==
      match TopicsOf(js[n]) case None => None case Some(s) => Some(Positions(js[..n]).value + [s])
  {
    assert js[..n + 1][..n] == js[..n];
  }

  lemma AddressesReadRightly(js: seq<Json>)
    ensures Addresses(js).Some? <==> forall k :: 0 <= k < |js| ==> IsScalar(js[k])
    ensures Addresses(js).Some? ==> ReadsAddresses(js, Addresses(js).value)
  {
    AddressesParsed(js);
    if Addresses(js).Some? {
      AddressesExact(js, Addresses(js).value);
    }
  }

  lemma TopicsReadRightly(js: seq<Json>)
    ensures Positions(js).Some? <==> forall k :: 0 <= k < |js| ==> IsPosition(js[k])
    ensures Positions(js).Some? ==> ReadsTopics(js, Table(Positions(js).value))
  {
    PositionsParsed(js);
    if Positions(js).Some? {
      TopicsExact(js, Table(Positions(js).value));
    }
  }

  method AddAddresses(js: seq<Json>, params: EventSubParams) returns (ok: bool)
    requires params.addresses == {}
    modifies params`addresses
    ensures ok <==> Addresses(js).Some?
    ensures ok ==> params.addresses == Addresses(js).value
    ensures ok <==> forall k :: 0 <= k < |js| ==> IsScalar(js[k])
    ensures ok ==> ReadsAddresses(js, params.addresses)
  {
    AddressesReadRightly(js);
    hide ReadsAddresses;
    for index := 0 to |js|
      invariant Addresses(js[..index]) == Some(params.addresses)
    {
      assert js[..index + 1][..index] == js[..index];
      var s := AsString(js[index]);
      if s.None? {
        AddressesFail(js, index + 1);
        return false;
      }
      var address := s.value;
      if "0x" <= address {
        address := address[2..];
      } else if "0X" <= address {
        address := address[2..];
      }
      params.AddAddress(Lower(address));
    }
    assert js[..|js|] == js;
    return true;
  }

  lemma {:induction false} AddressesFail(js: seq<Json>, n: nat)
    requires n <= |js| && Addresses(js[..n]).None?
    ensures Addresses(js).None?
    decreases |js| - n
  {
    if n == |js| {
      assert js[..n] == js;
    } else {
      assert js[..n + 1][..n] == js[..n];
      AddressesFail(js, n + 1);
    }
  }

  /** The table has, at position `|ts|`, the topics that the elements ask for, and before it those of
      `ts`; from position four on nothing is added. */
  ghost predicate AddsElements(items: seq<Json>, ts: seq<set<string>>, table: seq<set<string>>) {
    && (forall i: nat :: i < |ts| && i < MAX_TOPICS ==> TopicsAt(table, i) == ts[i])
    && (|ts| < MAX_TOPICS ==>
          forall t :: t in TopicsAt(table, |ts|) <==> exists k :: 0 <= k < |items| && AsksElement(items[k], t))
    && |table| <= MAX_TOPICS
  }

  lemma InnerReadRightly(items: seq<Json>, ts: seq<set<string>>)
    ensures NormTopics(items).Some? ==> AddsElements(items, ts, Filling(ts, NormTopics(items).value))
  {
    hide AsksElement;
    ElementsParsed(items);
    if NormTopics(items).Some? {
      var s := NormTopics(items).value;
      FillingEnds(ts, s);
      TrimmedKeeps(if |ts + [s]| <= MAX_TOPICS then ts + [s] else (ts + [s])[..MAX_TOPICS]);
      var table := Table(ts + [s]);
      forall i: nat | i <= |ts| && i < MAX_TOPICS ensures TopicsAt(table, i) == (ts + [s])[i] {
      }
    }
  }

  /** The inner loop over an array position. */
  method AddInnerTopics(items: seq<Json>, params: EventSubParams, index: nat, ghost ts: seq<set<string>>) returns (ok: bool)
    requires index == |ts| && params.topics == Table(ts)
    modifies params`topics
    ensures ok <==> NormTopics(items).Some?
    ensures ok ==> params.topics == Filling(ts, NormTopics(items).value)
    ensures ok ==> AddsElements(items, ts, params.topics)
  {
    InnerReadRightly(items, ts);
    hide AddsElements;
    FillingStarts(ts);
    for inner := 0 to |items|
      invariant NormTopics(items[..inner]).Some?
      invariant params.topics == Filling(ts, NormTopics(items[..inner]).value)
    {
      assert items[..inner + 1][..inner] == items[..inner];
      var s := AsString(items[inner]);
      if s.None? {
        NormTopicsFail(items, inner + 1);
        return false;
      }
      var topic := s.value;
      if "0x" <= topic {
        topic := topic[2..];
      }
      FillingGrows(ts, NormTopics(items[..inner]).value, Lower(topic));
      var _ := params.AddTopic(index, Lower(topic));
    }
    assert items[..|items|] == items;
    return true;
  }

  lemma {:induction false} NormTopicsFail(js: seq<Json>, n: nat)
    requires n <= |js| && NormTopics(js[..n]).None?
    ensures NormTopics(js).None?
    decreases |js| - n
  {
    if n == |js| {
      assert js[..n] == js;
    } else {
      assert js[..n + 1][..n] == js[..n];
      NormTopicsFail(js, n + 1);
    }
  }

  method AddTopics(js: seq<Json>, params: EventSubParams) returns (ok: bool)
    requires params.topics == []
    modifies params`topics
    ensures ok <==> Positions(js).Some?
    ensures ok ==> params.topics == Table(Positions(js).value)
    ensures ok <==> forall k :: 0 <= k < |js| ==> IsPosition(js[k])
    ensures ok ==> ReadsTopics(js, params.topics)
  {
    TopicsReadRightly(js);
    hide ReadsTopics, IsPosition;
    for index := 0 to |js|
      invariant Positions(js[..index]).Some?
      invariant params.topics == Table(Positions(js[..index]).value)
    {
      PositionsGrow(js, index);
      ghost var ts := Positions(js[..index]).value;
      FillingStarts(ts);
      if js[index].Null? {
        FillingEnds(ts, {});
      } else if js[index].Arr? {
        var inner := AddInnerTopics(js[index].items, params, index, ts);
        if !inner {
          PositionsFail(js, index + 1);
          return false;
        }
        FillingEnds(ts, NormTopics(js[index].items).value);
      } else {
        var s := AsString(js[index]);
        if s.None? {
          PositionsFail(js, index + 1);
          return false;
        }
        TextFills(ts, s.value);
        var _ := params.AddTopic(index, s.value);
      }
    }
    assert js[..|js|] == js;
    return true;
  }

  lemma {:induction false} PositionsFail(js: seq<Json>, n: nat)
    requires n <= |js| && Positions(js[..n]).None?
    ensures Positions(js).None?
    decreases |js| - n
  {
    if n == |js| {
      assert js[..n] == js;
    } else {
      assert js[..n + 1][..n] == js[..n];
      PositionsFail(js, n + 1);
    }
  }

  method FromJson(root: Json) returns (r: Option<Request>)
    ensures r == ParseRequest(root)
    ensures forall q :: r == Some(q) <==> Says(root, q)
  {
    ParsingAlwaysExact(root);
    hide Says;
    r := None;
    var m := Members(root);
    if m.None? || "id" !in m.value {
      return;
    }
    var id := AsString(m.value["id"]);
    if id.None? || "group" !in m.value {
      return;
    }
    var group := AsString(m.value["group"]);
    if group.None? || "params" !in m.value {
      return;
    }
    var fields := Members(m.value["params"]);
    if fields.None? {
      return;
    }
    var params := new EventSubParams();
    var from := AsInt64(FieldOr(fields.value, "fromBlock", Int(-1)));
    if from.None? {
      return;
    }
    params.fromBlock := from.value;
    var to := AsInt64(FieldOr(fields.value, "toBlock", Int(-1)));
    if to.None? {
      return;
    }
    params.toBlock := to.value;
    var addresses := Elements(FieldOr(fields.value, "addresses", Arr([])));
    if addresses.None? {
      return;
    }
    var ok := AddAddresses(addresses.value, params);
    if !ok {
      return;
    }
    var topics := Elements(FieldOr(fields.value, "topics", Arr([])));
    if topics.None? {
      return;
    }
    ok := AddTopics(topics.value, params);
    if !ok {
      return;
    }
    r := Some(Request(id.value, group.value, params.View()));
  }

  // ---------- The printer ----------

  /** `items` are the strings of `s`, each once, in some order. */
  ghost predicate Lists(items: seq<Json>, s: set<string>) {
    && (forall x :: x in items ==> x.Str? && x.s in s)
    && (forall t :: t in s ==> Str(t) in items)
    && |items| == |s|
  }

  ghost predicate ListsPosition(j: Json, s: set<string>) {
    if s == {} then j == Null else j.Arr? && Lists(j.items, s)
  }

  function PrintedFrom(p: Params, cursor: int): int {
    if cursor > 0 then cursor + 1 else p.fromBlock
  }

  function ParamsJson(p: Params, from: int, adds: seq<Json>, tops: seq<Json>): map<string, Json> {
    map["fromBlock" := Int(from), "toBlock" := Int(p.toBlock), "addresses" := Arr(adds), "topics" := Arr(tops)]
  }

  function RequestJson(r: Request, cursor: int, adds: seq<Json>, tops: seq<Json>): Json {
    Obj(map["id" := Str(r.id), "group" := Str(r.group),
            "params" := Obj(ParamsJson(r.params, PrintedFrom(r.params, cursor), adds, tops))])
  }

  ghost predicate PrintedAs(r: Request, cursor: int, j: Json, adds: seq<Json>, tops: seq<Json>) {
    && j == RequestJson(r, cursor, adds, tops)
    && Lists(adds, r.params.addresses)
    && |tops| == |r.params.topics|
    && forall i :: 0 <= i < |tops| ==> ListsPosition(tops[i], r.params.topics[i])
  }

  /** `j` is the printed form of the request with the given cursor. */
  ghost predicate Printed(r: Request, cursor: int, j: Json) {
    exists adds: seq<Json>, tops: seq<Json> :: PrintedAs(r, cursor, j, adds, tops)
  }

  /** The printed form, field by field. */
  ghost predicate Prints(r: Request, cursor: int, j: Json) {
    && j.Obj? && j.fields.Keys == {"id", "group", "params"}
    && j.fields["id"] == Str(r.id)
    && j.fields["group"] == Str(r.group)
    && j.fields["params"].Obj?
    && var fields := j.fields["params"].fields;
    && fields.Keys == {"fromBlock", "toBlock", "addresses", "topics"}
    && fields["fromBlock"] == Int(if cursor > 0 then cursor + 1 else r.params.fromBlock)
    && fields["toBlock"] == Int(r.params.toBlock)
    && fields["addresses"].Arr? && Lists(fields["addresses"].items, r.params.addresses)
    && fields["topics"].Arr? && |fields["topics"].items| == |r.params.topics|
    && forall i :: 0 <= i < |r.params.topics| ==> ListsPosition(fields["topics"].items[i], r.params.topics[i])
  }

  lemma ParamsJsonKeys(p: Params, from: int, adds: seq<Json>, tops: seq<Json>)
    ensures ParamsJson(p, from, adds, tops).Keys == {"fromBlock", "toBlock", "addresses", "topics"}
    ensures var f := ParamsJson(p, from, adds, tops);
      && f["fromBlock"] == Int(from) && f["toBlock"] == Int(p.toBlock)
      && f["addresses"] == Arr(adds) && f["topics"] == Arr(tops)
  {
    assert "fromBlock"[0] != "addresses"[0];
  }

  lemma PrintedPrints(r: Request, cursor: int, j: Json)
    requires Printed(r, cursor, j)
    ensures Prints(r, cursor, j)
  {
    hide Lists, ListsPosition, ParamsJson;
    var adds: seq<Json>, tops: seq<Json> :| PrintedAs(r, cursor, j, adds, tops);
    ParamsJsonKeys(r.params, PrintedFrom(r.params, cursor), adds, tops);
    assert j.fields.Keys == {"id", "group", "params"};
  }

  method ListSet(s: set<string>) returns (items: seq<Json>)
    ensures Lists(items, s)
  {
    items := [];
    var left := s;
    while left != {}
      invariant left <= s && Lists(items, s - left)
      decreases |left|
    {
      var x :| x in left;
      ghost var before := items;
      items := items + [Str(x)];
      assert s - (left - {x}) == (s - left) + {x};
      assert forall t :: t in s - left ==> Str(t) in before;
      left := left - {x};
    }
    assert s - {} == s;
  }

  method GenerateJson(r: Request, cursor: int) returns (j: Json)
    ensures Printed(r, cursor, j) && Prints(r, cursor, j)
  {
    var adds := ListSet(r.params.addresses);
    var tops: seq<Json> := [];
    for i := 0 to |r.params.topics|
      invariant |tops| == i
      invariant forall k :: 0 <= k < i ==> ListsPosition(tops[k], r.params.topics[k])
    {
      if r.params.topics[i] == {} {
        tops := tops + [Null];
        continue;
      }
      var inner := ListSet(r.params.topics[i]);
      tops := tops + [Arr(inner)];
    }
    j := RequestJson(r, cursor, adds, tops);
    assert PrintedAs(r, cursor, j, adds, tops);
    PrintedPrints(r, cursor, j);
    hide Prints;
  }

  // ---------- Print, then parse ----------

  function AddressImage(s: set<string>): set<string> { set t | t in s :: NormAddress(t) }
  function TopicImage(s: set<string>): set<string> { set t | t in s :: NormTopic(t) }

  function StringsOf(items: seq<Json>): set<string> { set x | x in items && x.Str? :: x.s }

  lemma StringsGrow(items: seq<Json>, x: Json)
    requires x.Str?
    ensures StringsOf(items + [x]) == StringsOf(items) + {x.s}
  {
    forall t ensures t in StringsOf(items + [x]) <==> t in StringsOf(items) || t == x.s {
      if t in StringsOf(items) {
        var y :| y in items && y.Str? && y.s == t;
        assert y in items + [x];
      }
      assert x in items + [x];
    }
  }

  lemma AddressImageReads(items: seq<Json>, x: Json)
    requires x.Str?
    ensures AddressImage(StringsOf(items + [x])) == AddressImage(StringsOf(items)) + {NormAddress(x.s)}
  {
    StringsGrow(items, x);
  }

  lemma TopicImageReads(items: seq<Json>, x: Json)
    requires x.Str?
    ensures TopicImage(StringsOf(items + [x])) == TopicImage(StringsOf(items)) + {NormTopic(x.s)}
  {
    StringsGrow(items, x);
  }

  lemma EmptyImages()
    ensures StringsOf([]) == {} && AddressImage({}) == {} && TopicImage({}) == {}
  {
  }

  lemma AddressesGrow(prev: seq<Json>, x: Json)
    requires x.Str? && Addresses(prev).Some?
    ensures Addresses(prev + [x]) == Some(Addresses(prev).value + {NormAddress(x.s)})
  {
    assert (prev + [x])[..|prev|] == prev;
  }

  lemma NormTopicsGrow(prev: seq<Json>, x: Json)
    requires x.Str? && NormTopics(prev).Some?
    ensures NormTopics(prev + [x]) == Some(NormTopics(prev).value + {NormTopic(x.s)})
  {
    assert (prev + [x])[..|prev|] == prev;
  }

  lemma {:induction false} AddressesRead(items: seq<Json>)
    requires forall x :: x in items ==> x.Str?
    ensures Addresses(items) == Some(AddressImage(StringsOf(items)))
  {
    if items == [] {
      EmptyImages();
    } else {
      var prev, x := items[..|items| - 1], items[|items| - 1];
      assert items == prev + [x];
      AddressesRead(prev);
      AddressesGrow(prev, x);
      AddressImageReads(prev, x);
    }
  }

  lemma {:induction false} TopicsRead(items: seq<Json>)
    requires forall x :: x in items ==> x.Str?
    ensures NormTopics(items) == Some(TopicImage(StringsOf(items)))
  {
    if items == [] {
      EmptyImages();
    } else {
      var prev, x := items[..|items| - 1], items[|items| - 1];
      assert items == prev + [x];
      TopicsRead(prev);
      NormTopicsGrow(prev, x);
      TopicImageReads(prev, x);
    }
  }

  lemma ListedStrings(items: seq<Json>, s: set<string>)
    requires Lists(items, s)
    ensures StringsOf(items) == s
  {
    forall t | t in s ensures t in StringsOf(items) {
      assert Str(t) in items;
    }
  }

  lemma PositionRead(j: Json, s: set<string>)
    requires ListsPosition(j, s)
    ensures TopicsOf(j) == Some(TopicImage(s))
  {
    if s != {} {
      TopicsRead(j.items);
      ListedStrings(j.items, s);
    } else {
      EmptyImages();
    }
  }

  function Images(topics: seq<set<string>>): (r: seq<set<string>>)
    ensures |r| == |topics| && forall i :: 0 <= i < |r| ==> r[i] == TopicImage(topics[i])
  {
    if topics == [] then [] else Images(topics[..|topics| - 1]) + [TopicImage(topics[|topics| - 1])]
  }

  lemma {:induction false} PositionsRead(tops: seq<Json>, topics: seq<set<string>>)
    requires |tops| == |topics| && forall i :: 0 <= i < |tops| ==> ListsPosition(tops[i], topics[i])
    ensures Positions(tops) == Some(Images(topics))
  {
    if tops != [] {
      var n := |tops| - 1;
      PositionsRead(tops[..n], topics[..n]);
      PositionRead(tops[n], topics[n]);
    }
  }

  lemma PrintedParams(p: Params, from: int, adds: seq<Json>, tops: seq<Json>)
    requires IsInt64(from) && IsInt64(p.toBlock)
    ensures var a, t := Addresses(adds), Positions(tops);
      a.Some? && t.Some? ==>
        ParseParams(ParamsJson(p, from, adds, tops)) == Some(Params(from, p.toBlock, a.value, Table(t.value)))
  {
    var f := ParamsJson(p, from, adds, tops);
    assert "fromBlock"[0] != "addresses"[0];
    assert f["fromBlock"] == Int(from) && f["toBlock"] == Int(p.toBlock);
    assert f["addresses"] == Arr(adds) && f["topics"] == Arr(tops);
  }

  lemma PrintedRequest(r: Request, cursor: int, adds: seq<Json>, tops: seq<Json>)
    ensures var p := ParseParams(ParamsJson(r.params, PrintedFrom(r.params, cursor), adds, tops));
      p.Some? ==> ParseRequest(RequestJson(r, cursor, adds, tops)) == Some(Request(r.id, r.group, p.value))
  {
    var f := RequestJson(r, cursor, adds, tops).fields;
    assert f["id"] == Str(r.id) && f["group"] == Str(r.group);
  }

  /** `q` is the filter `p` with all its tables normalised. */
  ghost predicate Normalised(p: Params, q: Params) {
    && q.addresses == AddressImage(p.addresses)
    && forall i: nat :: i < MAX_TOPICS ==> TopicsAt(q.topics, i) == TopicImage(TopicsAt(p.topics, i))
  }

  lemma TablesRead(p: Params, adds: seq<Json>, tops: seq<Json>, q: Params)
    requires Lists(adds, p.addresses)
    requires |tops| == |p.topics| && forall i :: 0 <= i < |tops| ==> ListsPosition(tops[i], p.topics[i])
    ensures Addresses(adds).Some? && Positions(tops).Some?
    ensures q.addresses == Addresses(adds).value && q.topics == Table(Positions(tops).value) ==> Normalised(p, q)
  {
    AddressesRead(adds);
    ListedStrings(adds, p.addresses);
    PositionsRead(tops, p.topics);
    TopicParsing(tops);
    EmptyImages();
  }

  /** What comes back: id, group and last block as they were, the first block moved past the cursor,
      and the tables normalised. */
  lemma RoundTrip(r: Request, cursor: int, j: Json)
    requires Printed(r, cursor, j) && IsInt64(PrintedFrom(r.params, cursor)) && IsInt64(r.params.toBlock)
    ensures var back := ParseRequest(j);
      && back.Some? && back.value.id == r.id && back.value.group == r.group
      && back.value.params.toBlock == r.params.toBlock
      && back.value.params.fromBlock == (if cursor > 0 then cursor + 1 else r.params.fromBlock)
      && Normalised(r.params, back.value.params)
  {
    var adds: seq<Json>, tops: seq<Json> :| PrintedAs(r, cursor, j, adds, tops);
    PrintedParams(r.params, PrintedFrom(r.params, cursor), adds, tops);
    PrintedRequest(r, cursor, adds, tops);
    var p := ParseParams(ParamsJson(r.params, PrintedFrom(r.params, cursor), adds, tops));
    TablesRead(r.params, adds, tops, if p.Some? then p.value else r.params);
  }

  predicate HasUpper(s: string) {
    exists i :: 0 <= i < |s| && 'A' <= s[i] <= 'Z'
  }

  /** Lower case and without a prefix that would be stripped. */
  predicate Plain(s: string) {
    !("0x" <= s) && !HasUpper(s)
  }

  lemma LowerIs(s: string)
    ensures !HasUpper(Lower(s)) && (Lower(s) == s <==> !HasUpper(s))
  {
    if i :| 0 <= i < |s| && 'A' <= s[i] <= 'Z' {
      assert Lower(s)[i] != s[i];
    }
  }

  lemma PlainIsNormal(s: string)
    ensures NormAddress(s) == s <==> Plain(s)
    ensures Plain(s) ==> NormTopic(s) == s
  {
    LowerIs(s);
    if "0x" <= s || "0X" <= s {
      assert |NormAddress(s)| < |s|;
      assert s[1] == 'x' || s[1] == 'X';
    }
  }

  /** Normalising an address makes it lighter or leaves it as it is. */
  function Weight(s: string): nat { 2 * |s| + if HasUpper(s) then 1 else 0 }

  lemma NormalisedIsLighter(s: string)
    requires NormAddress(s) != s
    ensures Weight(NormAddress(s)) < Weight(s)
  {
    LowerIs(s);
    LowerIs(if |s| >= 2 then s[2..] else s);
  }

  lemma {:induction false} Heaviest(s: set<string>) returns (m: string)
    requires s != {}
    ensures m in s && forall x :: x in s ==> Weight(x) <= Weight(m)
    decreases |s|
  {
    m :| m in s;
    if s - {m} != {} {
      var n := Heaviest(s - {m});
      m := if Weight(n) > Weight(m) then n else m;
    }
  }

  lemma NormalFormOfHeavier(s: set<string>, m: string) returns (b: string)
    requires m in AddressImage(s) && !Plain(m)
    ensures b in s && !Plain(b) && Weight(m) < Weight(b)
  {
    b :| b in s && NormAddress(b) == m;
    PlainIsNormal(m);
    PlainIsNormal(b);
    NormalisedIsLighter(b);
  }

  lemma SameImageIsPlain(s: set<string>, a: string)
    requires AddressImage(s) == s && a in s
    ensures Plain(a)
  {
    var odd := set x | x in s && !Plain(x);
    if !Plain(a) {
      assert a in odd;
      var m := Heaviest(odd);
      var b := NormalFormOfHeavier(s, m);
      assert false;
    }
  }

  lemma PlainImageIsSame(s: set<string>)
    requires forall a :: a in s ==> Plain(a)
    ensures AddressImage(s) == s
  {
    forall a | a in s ensures NormAddress(a) == a { PlainIsNormal(a); }
  }

  /** Normalising a set of addresses gives the same set exactly if each of them is plain: the heaviest
      of those that are not plain would be the normal form of a heavier one. */
  lemma ImageIsSame(s: set<string>)
    ensures AddressImage(s) == s <==> forall a :: a in s ==> Plain(a)
  {
    if AddressImage(s) == s {
      forall a | a in s ensures Plain(a) { SameImageIsPlain(s, a); }
    } else if forall a :: a in s ==> Plain(a) {
      PlainImageIsSame(s);
    }
  }

  /** Normalising brings up no topic that was not asked for. */
  ghost predicate NothingNew(s: set<string>) {
    forall t: Topic :: t in TopicImage(s) ==> t in s
  }

  /** Something is asked for, but even the normalised texts hold no topic. */
  ghost predicate NoTopicIn(s: set<string>) {
    s != {} && forall t: Topic :: t !in TopicImage(s)
  }

  /** The addresses are plain, and normalising brings up nothing new at any of the first four
      positions. */
  ghost predicate NormalTables(p: Params) {
    && (forall a :: a in p.addresses ==> Plain(a))
    && forall i: nat :: i < MAX_TOPICS ==> NothingNew(TopicsAt(p.topics, i))
  }

  /** Some position below four holds no topic even when normalised. */
  ghost predicate Garbled(p: Params) {
    exists i: nat :: i < MAX_TOPICS && NoTopicIn(TopicsAt(p.topics, i))
  }

  lemma TopicIsNormal(t: Topic)
    ensures NormTopic(t) == t
  {
    assert t[1] != 'x';
    assert Lower(t) == t;
  }

  /** Normalising loses no topic and makes no position empty or non-empty. */
  lemma ImageKeeps(s: set<string>)
    ensures TopicImage(s) == {} <==> s == {}
    ensures forall t: Topic :: t in s ==> t in TopicImage(s)
  {
    if x :| x in s {
      assert NormTopic(x) in TopicImage(s);
    }
    forall t: Topic | t in s ensures t in TopicImage(s) {
      TopicIsNormal(t);
    }
  }

  lemma NormalisedUnsatisfiable(p: Params, q: Params)
    requires Normalised(p, q)
    ensures Unsatisfiable(p) && Unsatisfiable(q) <==> Garbled(p)
  {
    forall i: nat | i < MAX_TOPICS
      ensures TopicImage(TopicsAt(p.topics, i)) == {} <==> TopicsAt(p.topics, i) == {}
      ensures Unmeetable(q, i) ==> Unmeetable(p, i)
    {
      ImageKeeps(TopicsAt(p.topics, i));
    }
    if Garbled(p) {
      var i: nat :| i < MAX_TOPICS && NoTopicIn(TopicsAt(p.topics, i));
      assert Unmeetable(q, i);
    }
    if i: nat :| i < MAX_TOPICS && Unmeetable(q, i) {
      assert NoTopicIn(TopicsAt(p.topics, i));
    }
  }

  lemma NormalisedTables(p: Params, q: Params)
    requires Normalised(p, q)
    ensures SameTables(p, q) <==> NormalTables(p)
  {
    ImageIsSame(p.addresses);
    forall i: nat | i < MAX_TOPICS
      ensures TopicsAt(q.topics, i) == {} <==> TopicsAt(p.topics, i) == {}
      ensures forall t: Topic :: t in TopicsAt(p.topics, i) ==> t in TopicsAt(q.topics, i)
    {
      ImageKeeps(TopicsAt(p.topics, i));
    }
    assert Reach(p) == Reach(q);
    if SameTables(p, q) {
      forall i: nat | i < MAX_TOPICS ensures NothingNew(TopicsAt(p.topics, i)) {
        forall t: Topic | t in TopicImage(TopicsAt(p.topics, i)) ensures t in TopicsAt(p.topics, i) {
          assert Allows(q, i, t) && Allows(p, i, t);
        }
      }
    }
  }

  /** The meaning survives exactly when normalising the tables brings up nothing new, or when some
      position holds no topic even then, so that neither filter accepts anything. */
  lemma MeaningSurvives(r: Request, cursor: int, j: Json)
    requires Printed(r, cursor, j) && IsInt64(PrintedFrom(r.params, cursor)) && IsInt64(r.params.toBlock)
    ensures ParseRequest(j).Some?
    ensures SameMeaning(r.params, ParseRequest(j).value.params) <==> NormalTables(r.params) || Garbled(r.params)
  {
    RoundTrip(r, cursor, j);
    var p, q := r.params, ParseRequest(j).value.params;
    MeaningIsTables(p, q);
    NormalisedUnsatisfiable(p, q);
    NormalisedTables(p, q);
  }

  lemma NotNormal(p: Params, t: string)
    requires TopicsAt(p.topics, 0) == {t} && forall i: nat :: 0 < i < MAX_TOPICS ==> TopicsAt(p.topics, i) == {}
    requires !IsTopic(t) && IsTopic(NormTopic(t))
    ensures !NormalTables(p) && !Garbled(p)
  {
    var t': Topic := NormTopic(t);
    assert t' in TopicImage(TopicsAt(p.topics, 0)) && t' !in TopicsAt(p.topics, 0);
  }

  /** A prefixed or upper-case topic: the printed filter accepts no log, the parsed one does. */
  lemma MeaningLost(r: Request, cursor: int, j: Json, t: string)
    requires Printed(r, cursor, j) && IsInt64(PrintedFrom(r.params, cursor)) && IsInt64(r.params.toBlock)
    requires TopicsAt(r.params.topics, 0) == {t}
    requires forall i: nat :: 0 < i < MAX_TOPICS ==> TopicsAt(r.params.topics, i) == {}
    requires !IsTopic(t) && IsTopic(NormTopic(t))
    ensures ParseRequest(j).Some? && !SameMeaning(r.params, ParseRequest(j).value.params)
  {
    MeaningSurvives(r, cursor, j);
    NotNormal(r.params, t);
  }

  lemma PlainImages(s: set<string>)
    requires forall t :: t in s ==> Plain(t)
    ensures TopicImage(s) == s
  {
    forall t | t in s ensures NormTopic(t) == t { PlainIsNormal(t); }
  }

  ghost predicate PlainFilter(p: Params) {
    && (forall a :: a in p.addresses ==> Plain(a))
    && forall i, t :: 0 <= i < |p.topics| && t in p.topics[i] ==> Plain(t)
  }

  lemma PlainIsNormalTables(p: Params)
    requires PlainFilter(p)
    ensures NormalTables(p)
  {
    forall i: nat | i < MAX_TOPICS ensures NothingNew(TopicsAt(p.topics, i)) {
      PlainImages(TopicsAt(p.topics, i));
    }
  }

  /** A filter whose addresses and topics are plain text accepts the same log entries after it was
      printed and parsed. */
  lemma PlainSurvives(r: Request, cursor: int, j: Json)
    requires Printed(r, cursor, j) && IsInt64(PrintedFrom(r.params, cursor)) && IsInt64(r.params.toBlock)
    requires PlainFilter(r.params)
    ensures ParseRequest(j).Some? && SameMeaning(r.params, ParseRequest(j).value.params)
  {
    MeaningSurvives(r, cursor, j);
    PlainIsNormalTables(r.params);
  }

  // ---------- What the usual forms of addresses and topics become ----------

  /** The parameters of the request value. */
  predicate HasParams(root: Json, fields: map<string, Json>) {
    root.Obj? && "params" in root.fields && root.fields["params"] == Obj(fields)
  }

  lemma PlainForms(a: string)
    requires Plain(a)
    ensures NormAddress("0x" + a) == NormAddress("0X" + a) == NormAddress(a) == a
  {
    LowerIs(a);
    PlainIsNormal(a);
    assert ("0x" + a)[2..] == a && ("0X" + a)[2..] == a;
  }

  lemma AddressesSaid(root: Json, r: Request, fields: map<string, Json>, items: seq<Json>, a: string)
    requires Says(root, r) && HasParams(root, fields) && "addresses" in fields && fields["addresses"] == Arr(items)
    ensures a in r.params.addresses <==> exists k :: 0 <= k < |items| && AsksAddress(items[k], a)
  {
    hide ReadsTopics, ReadsBlock, AsksAddress, IsScalar;
    var adds: seq<Json>, tops: seq<Json> :| ReadsParams(fields, r.params, adds, tops);
    assert adds == items;
  }

  lemma OneAddress(p: Params, a: string, log: LogEntry)
    requires p.addresses == {a}
    ensures Accepts(p, log) <==> log.address == a && Accepts(p.(addresses := {}), log)
  {
  }

  /** An address may be given with the prefix 0x, with 0X or plain: the filter then holds exactly the plain
      one, and accepts exactly the logs of that address that its topics allow. */
  lemma AddressForms(root: Json, r: Request, fields: map<string, Json>, x: string, a: string)
    requires Says(root, r) && HasParams(root, fields)
    requires "addresses" in fields && fields["addresses"] == Arr([Str(x)])
    requires Plain(a) && (x == "0x" + a || x == "0X" + a || x == a)
    ensures r.params.addresses == {a}
    ensures forall log :: Accepts(r.params, log) <==> log.address == a && Accepts(r.params.(addresses := {}), log)
  {
    hide Says, AsksAddress, NormAddress, Accepts, Plain;
    PlainForms(a);
    forall b ensures b in r.params.addresses <==> b == a {
      AddressesSaid(root, r, fields, [Str(x)], b);
      AsksAddressExact(Str(x), b);
      assert [Str(x)][0] == Str(x);
    }
    assert r.params.addresses == {a};
    forall log ensures Accepts(r.params, log) <==> log.address == a && Accepts(r.params.(addresses := {}), log) {
      OneAddress(r.params, a, log);
    }
  }

  /** Element `i` of the topics of the request value. */
  predicate HasTopic(fields: map<string, Json>, i: nat, j: Json) {
    "topics" in fields && fields["topics"].Arr? && i < |fields["topics"].items| && fields["topics"].items[i] == j
  }

  lemma TopicsSaid(root: Json, r: Request, fields: map<string, Json>, i: nat, j: Json, t: string)
    requires Says(root, r) && HasParams(root, fields) && i < MAX_TOPICS && HasTopic(fields, i, j)
    ensures t in TopicsAt(r.params.topics, i) <==> AsksTopic(j, t)
  {
    hide ReadsAddresses, ReadsBlock, AsksTopic, IsPosition;
    var adds: seq<Json>, tops: seq<Json> :| ReadsParams(fields, r.params, adds, tops);
    assert tops == fields["topics"].items;
  }

  /** A topic in an array may be given with the prefix 0x or without. */
  lemma TopicForms(root: Json, r: Request, fields: map<string, Json>, i: nat, x: string, t: Topic)
    requires Says(root, r) && HasParams(root, fields) && i < MAX_TOPICS && HasTopic(fields, i, Arr([Str(x)]))
    requires x == "0x" + t || x == t
    ensures TopicsAt(r.params.topics, i) == {t}
  {
    hide AsksElement, Says;
    TopicIsNormal(t);
    assert ("0x" + t)[2..] == t && t[1] != 'x';
    LowerIs(t);
    forall u ensures u in TopicsAt(r.params.topics, i) <==> u == t {
      TopicsSaid(root, r, fields, i, Arr([Str(x)]), u);
      AsksElementExact(Str(x), u);
      assert [Str(x)][0] == Str(x);
    }
  }

  /** A position given as a single text is kept as it stands, prefix and case included. */
  lemma TextIsVerbatim(root: Json, r: Request, fields: map<string, Json>, i: nat, x: string)
    requires Says(root, r) && HasParams(root, fields) && i < MAX_TOPICS && HasTopic(fields, i, Str(x))
    ensures TopicsAt(r.params.topics, i) == {x}
  {
    hide Says;
    forall u ensures u in TopicsAt(r.params.topics, i) <==> u == x {
      TopicsSaid(root, r, fields, i, Str(x), u);
    }
  }

  /** Without the fields, the first and the last block are -1, and the tables are empty. */
  lemma Defaults(root: Json, r: Request)
    requires Says(root, r) && HasParams(root, map[])
    ensures r.params == Params(-1, -1, {}, [])
  {
    hide AsksAddress, AsksTopic;
    var adds: seq<Json>, tops: seq<Json> :| ReadsParams(map[], r.params, adds, tops);
    assert r.params.addresses == {};
    assert forall i: nat :: i < MAX_TOPICS ==> TopicsAt(r.params.topics, i) == {};
    TableIsUnique(r.params.topics, []);
  }
}
