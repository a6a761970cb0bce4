/** What parsing a subscription request computes, and what that means. */
module EventParsing {
  import opened EventTypes

  datatype Json =
    | Null
    | Bool(b: bool)
    | Int(n: int)
    | Str(s: string)
    | Arr(items: seq<Json>)
    | Obj(fields: map<string, Json>)

  datatype Request = Request(id: string, group: string, params: Params)

  // ---------- The conversions of the JSON library; None where it throws ----------

  function Digits(n: nat): string {
    var d := ['0' + (n % 10) as char];
    if n < 10 then d else Digits(n / 10) + d
  }

  function AsString(j: Json): Option<string> {
    match j
    case Null => Some("")
    case Bool(b) => Some(if b then "true" else "false")
    case Int(n) => Some(if n < 0 then "-" + Digits(-n) else Digits(n))
    case Str(s) => Some(s)
    case Arr(_) => None
    case Obj(_) => None
  }

  function AsInt64(j: Json): Option<int> {
    match j
    case Null => Some(0)
    case Bool(b) => Some(if b then 1 else 0)
    case Int(n) => if IsInt64(n) then Some(n) else None
    case _ => None
  }

  /** The members of an object; null counts as an empty one. */
  function Members(j: Json): Option<map<string, Json>> {
    match j
    case Obj(fields) => Some(fields)
    case Null => Some(map[])
    case _ => None
  }

  /** What a loop over `size()` and `operator[](index)` visits. */
  function Elements(j: Json): Option<seq<Json>> {
    match j
    case Arr(items) => Some(items)
    case Obj(fields) => if fields == map[] then Some([]) else None
    case _ => Some([])
  }

  // ---------- Normal forms of addresses and topics ----------

  function LowerChar(c: char): char {
    if 'A' <= c <= 'Z' then c - 'A' + 'a' else c
  }

  function Lower(s: string): string {
    seq(|s|, i requires 0 <= i < |s| => LowerChar(s[i]))
  }

  function NormAddress(s: string): string {
    Lower(if "0x" <= s then s[2..] else if "0X" <= s then s[2..] else s)
  }

  /** Only a lower-case prefix is stripped: the source's other test compares two characters with three. */
  function NormTopic(s: string): string {
    Lower(if "0x" <= s then s[2..] else s)
  }

  // ---------- What parsing computes ----------

  function Addresses(js: seq<Json>): Option<set<string>> {
    if js == [] then Some({})
    else
      var rest, s := Addresses(js[..|js| - 1]), AsString(js[|js| - 1]);
      if rest.Some? && s.Some? then Some(rest.value + {NormAddress(s.value)}) else None
  }

  function NormTopics(js: seq<Json>): Option<set<string>> {
    if js == [] then Some({})
    else
      var rest, s := NormTopics(js[..|js| - 1]), AsString(js[|js| - 1]);
      if rest.Some? && s.Some? then Some(rest.value + {NormTopic(s.value)}) else None
  }

  /** The topics one position asks for: null nothing, an array its normalised elements, and any
      other value its text as it stands. */
  function TopicsOf(j: Json): Option<set<string>> {
    match j
    case Null => Some({})
    case Arr(items) => NormTopics(items)
    case _ => match AsString(j) case None => None case Some(s) => Some({s})
  }

  function Positions(js: seq<Json>): (r: Option<seq<set<string>>>)
    ensures r.Some? ==> |r.value| == |js|
  {
    if js == [] then Some([])
    else
      var rest, p := Positions(js[..|js| - 1]), TopicsOf(js[|js| - 1]);
      if rest.Some? && p.Some? then Some(rest.value + [p.value]) else None
  }

  /** The table without its trailing empty positions. */
  function Trimmed(ts: seq<set<string>>): seq<set<string>> {
    if ts != [] && ts[|ts| - 1] == {} then Trimmed(ts[..|ts| - 1]) else ts
  }

  function Table(ts: seq<set<string>>): seq<set<string>> {
    Trimmed(if |ts| <= MAX_TOPICS then ts else ts[..MAX_TOPICS])
  }

  function FieldOr(fields: map<string, Json>, key: string, default: Json): Json {
    if key in fields then fields[key] else default
  }

  function ParseParams(fields: map<string, Json>): Option<Params> {
    var from := AsInt64(FieldOr(fields, "fromBlock", Int(-1)));
    var to := AsInt64(FieldOr(fields, "toBlock", Int(-1)));
    var adds := Elements(FieldOr(fields, "addresses", Arr([])));
    var tops := Elements(FieldOr(fields, "topics", Arr([])));
    if from.None? || to.None? || adds.None? || tops.None? then None
    else
      var a, t := Addresses(adds.value), Positions(tops.value);
      if a.None? || t.None? then None else Some(Params(from.value, to.value, a.value, Table(t.value)))
  }

  function ParseRequest(root: Json): Option<Request> {
    var m := Members(root);
    if m.None? || "id" !in m.value || "group" !in m.value || "params" !in m.value then None
    else
      var id, group, fields := AsString(m.value["id"]), AsString(m.value["group"]), Members(m.value["params"]);
      if id.None? || group.None? || fields.None? then None
      else match ParseParams(fields.value)
        case None => None
        case Some(p) => Some(Request(id.value, group.value, p))
  }

  // ---------- Lemmas about the topic table ----------

  lemma {:induction false} TrimmedKeeps(ts: seq<set<string>>)
    ensures |Trimmed(ts)| <= |ts|
    ensures forall i :: 0 <= i < |ts| ==> TopicsAt(Trimmed(ts), i) == ts[i]
    ensures Trimmed(ts) != [] ==> Trimmed(ts)[|Trimmed(ts)| - 1] != {}
  {
    if ts != [] && ts[|ts| - 1] == {} {
      TrimmedKeeps(ts[..|ts| - 1]);
    }
  }

  /** Growing a trimmed table back restores the positions that were cut off. */
  lemma ResizeTrimmed(ts: seq<set<string>>)
    ensures Resize(Trimmed(ts), |ts| + 1) == ts + [{}]
  {
    TrimmedKeeps(ts);
  }

  lemma TrimmedAppend(ts: seq<set<string>>, s: set<string>)
    ensures Trimmed(ts + [s]) == if s == {} then Trimmed(ts) else ts + [s]
  {
    assert (ts + [s])[..|ts|] == ts;
  }

  /** Topic parsing loses nothing although every addition resizes the table: below four each position
      holds exactly the topics given there, later positions are ignored, and the length is one past
      the last non-empty position. */
  lemma TopicParsing(js: seq<Json>)
    requires Positions(js).Some?
    ensures var given, table := Positions(js).value, Table(Positions(js).value);
      && |table| <= MAX_TOPICS && |table| <= |js|
      && (forall i :: 0 <= i < MAX_TOPICS ==> TopicsAt(table, i) == TopicsAt(given, i))
      && (table != [] ==> given[|table| - 1] != {})
      && (forall i :: |table| <= i < |js| && i < MAX_TOPICS ==> given[i] == {})
  {
    var given := Positions(js).value;
    TrimmedKeeps(if |given| <= MAX_TOPICS then given else given[..MAX_TOPICS]);
  }

  // ---------- What a request says, told without the functions above ----------

  predicate IsDigit(c: char) { '0' <= c <= '9' }

  /** The number that a text of digits denotes. */
  function Value(s: string): int {
    if s == [] then 0 else 10 * Value(s[..|s| - 1]) + (s[|s| - 1] as int - '0' as int)
  }

  /** `s` is the decimal notation of `n`. */
  predicate Decimal(s: string, n: int) {
    if n < 0 then s != [] && s[0] == '-' && Decimal(s[1..], -n)
    else s != [] && (forall i :: 0 <= i < |s| ==> IsDigit(s[i])) && (|s| > 1 ==> s[0] != '0') && Value(s) == n
  }

  /** The text that a value stands for: scalars have one, arrays and objects have none. */
  predicate IsText(j: Json, s: string) {
    match j
    case Null => s == ""
    case Bool(b) => s == if b then "true" else "false"
    case Int(n) => Decimal(s, n)
    case Str(x) => s == x
    case Arr(_) => false
    case Obj(_) => false
  }

  /** `t` is `s` with its letters A to Z in lower case. */
  predicate LowerOf(s: string, t: string) {
    && |t| == |s|
    && forall i :: 0 <= i < |s| ==>
         if 'A' <= s[i] <= 'Z' then t[i] as int == s[i] as int + 32 else t[i] == s[i]
  }

  /** `x` is `p` followed by `rest`. */
  predicate Starts(x: string, p: string, rest: string) { x == p + rest }

  /** The filter address `a` that a text asks for: the text in lower case, without a prefix 0x or 0X. */
  ghost predicate AddressOf(x: string, a: string) {
    if exists rest :: Starts(x, "0x", rest) || Starts(x, "0X", rest) then
      exists rest :: (Starts(x, "0x", rest) || Starts(x, "0X", rest)) && LowerOf(rest, a)
    else LowerOf(x, a)
  }

  /** The topic that an array element asks for: its text in lower case, without a prefix 0x. */
  ghost predicate TopicOf(x: string, t: string) {
    if exists rest :: Starts(x, "0x", rest) then exists rest :: Starts(x, "0x", rest) && LowerOf(rest, t)
    else LowerOf(x, t)
  }

  ghost predicate AsksAddress(j: Json, a: string) {
    exists x :: IsText(j, x) && AddressOf(x, a)
  }

  ghost predicate AsksElement(j: Json, t: string) {
    exists x :: IsText(j, x) && TopicOf(x, t)
  }

  predicate IsScalar(j: Json) { !j.Arr? && !j.Obj? }

  /** What a position may be: null, a text, or an array of texts. */
  predicate IsPosition(j: Json) {
    if j.Arr? then forall k :: 0 <= k < |j.items| ==> IsScalar(j.items[k]) else IsScalar(j)
  }

  /** The topics a position asks for: null none, an array those of its elements, a text itself. */
  ghost predicate AsksTopic(j: Json, t: string) {
    match j
    case Null => false
    case Arr(items) => exists k :: 0 <= k < |items| && AsksElement(items[k], t)
    case _ => IsText(j, t)
  }

  /** The addresses `s` are those that the elements ask for, each of which has a text. */
  ghost predicate ReadsAddresses(js: seq<Json>, s: set<string>) {
    && (forall k :: 0 <= k < |js| ==> IsScalar(js[k]))
    && forall a :: a in s <==> exists k :: 0 <= k < |js| && AsksAddress(js[k], a)
  }

  /** The table holds, at each of the first four positions, the topics that position asks for, and does
      not end with an empty one. */
  ghost predicate ReadsTopics(js: seq<Json>, table: seq<set<string>>) {
    && (forall k :: 0 <= k < |js| ==> IsPosition(js[k]))
    && |table| <= MAX_TOPICS
    && (forall i: nat, t :: i < MAX_TOPICS ==> (t in TopicsAt(table, i) <==> i < |js| && AsksTopic(js[i], t)))
    && (table != [] ==> table[|table| - 1] != {})
  }

  /** `n` is the 64-bit number that a value stands for. */
  predicate IsNumber(j: Json, n: int) {
    match j
    case Null => n == 0
    case Bool(b) => n == if b then 1 else 0
    case Int(m) => n == m && -0x8000_0000_0000_0000 <= m < 0x8000_0000_0000_0000
    case _ => false
  }

  /** A block number is that of its field, or -1 if there is no such field. */
  predicate ReadsBlock(fields: map<string, Json>, key: string, n: int) {
    if key in fields then IsNumber(fields[key], n) else n == -1
  }

  /** The elements of a field: those of an array; none if it is empty, a scalar or missing. */
  predicate ReadsList(fields: map<string, Json>, key: string, items: seq<Json>) {
    if key !in fields then items == []
    else match fields[key]
      case Arr(xs) => items == xs
      case Obj(f) => f == map[] && items == []
      case _ => items == []
  }

  ghost predicate ReadsParams(fields: map<string, Json>, p: Params, adds: seq<Json>, tops: seq<Json>) {
    && ReadsBlock(fields, "fromBlock", p.fromBlock)
    && ReadsBlock(fields, "toBlock", p.toBlock)
    && ReadsList(fields, "addresses", adds) && ReadsAddresses(adds, p.addresses)
    && ReadsList(fields, "topics", tops) && ReadsTopics(tops, p.topics)
  }

  /** The request `r` is what the value `root` says. */
  ghost predicate Says(root: Json, r: Request) {
    && root.Obj? && "id" in root.fields && "group" in root.fields && "params" in root.fields
    && IsText(root.fields["id"], r.id)
    && IsText(root.fields["group"], r.group)
    && (root.fields["params"].Obj? || root.fields["params"].Null?)
    && var fields := if root.fields["params"].Obj? then root.fields["params"].fields else map[];
    && exists adds: seq<Json>, tops: seq<Json> :: ReadsParams(fields, r.params, adds, tops)
  }

  // ---------- The parser computes exactly that ----------

  lemma {:induction false} ValueNotNegative(s: string)
    requires forall i :: 0 <= i < |s| ==> IsDigit(s[i])
    ensures Value(s) >= 0 && (s != [] && s[0] != '0' ==> Value(s) > 0)
  {
    if s != [] {
      ValueNotNegative(s[..|s| - 1]);
    }
  }

  lemma {:induction false} DigitsAreDecimal(n: nat)
    ensures Decimal(Digits(n), n) && (n > 0 ==> Digits(n)[0] != '0')
  {
    if n < 10 {
      assert Value(['0' + n as char]) == n by {
        assert ['0' + n as char][..0] == [];
      }
    } else {
      DigitsAreDecimal(n / 10);
      var d := Digits(n);
      assert d[..|d| - 1] == Digits(n / 10);
    }
  }

  lemma {:induction false} DecimalIsDigits(s: string, n: nat)
    requires Decimal(s, n)
    ensures s == Digits(n)
  {
    var last := |s| - 1;
    assert IsDigit(s[last]);
    if last == 0 {
      assert s[..0] == [] && Value(s) == s[0] as int - '0' as int;
      assert s == [s[0]];
    } else {
      ValueNotNegative(s[..last]);
      DecimalIsDigits(s[..last], n / 10);
    }
  }

  lemma TextExact(j: Json, s: string)
    ensures AsString(j) == Some(s) <==> IsText(j, s)
  {
    if j.Int? {
      var n := if j.n < 0 then -j.n else j.n;
      DigitsAreDecimal(n);
      if j.n < 0 {
        assert ("-" + Digits(n))[1..] == Digits(n);
        if Decimal(s, j.n) {
          DecimalIsDigits(s[1..], n);
          assert s == "-" + s[1..];
        }
      } else if Decimal(s, j.n) {
        DecimalIsDigits(s, n);
      }
    }
  }

  lemma ScalarHasText(j: Json)
    ensures AsString(j).Some? <==> IsScalar(j)
  {
  }

  lemma LowerExact(s: string, t: string)
    ensures Lower(s) == t <==> LowerOf(s, t)
  {
  }

  lemma PrefixExact(x: string, p: string)
    requires |p| == 2
    ensures p <= x <==> exists rest :: Starts(x, p, rest)
    ensures forall rest :: Starts(x, p, rest) ==> p <= x && rest == x[2..]
  {
    if p <= x {
      assert Starts(x, p, x[2..]);
    }
  }

  lemma AddressExact(x: string, a: string)
    ensures NormAddress(x) == a <==> AddressOf(x, a)
  {
    PrefixExact(x, "0x");
    PrefixExact(x, "0X");
    LowerExact(x, a);
    if "0x" <= x || "0X" <= x {
      LowerExact(x[2..], a);
    }
  }

  lemma TopicExact(x: string, t: string)
    ensures NormTopic(x) == t <==> TopicOf(x, t)
  {
    PrefixExact(x, "0x");
    LowerExact(x, t);
    if "0x" <= x {
      LowerExact(x[2..], t);
    }
  }

  lemma AsksAddressExact(j: Json, a: string)
    ensures AsksAddress(j, a) <==> AsString(j).Some? && NormAddress(AsString(j).value) == a
  {
    hide AddressOf, IsText, NormAddress;
    if AsString(j).Some? {
      TextExact(j, AsString(j).value);
      AddressExact(AsString(j).value, a);
    }
    if x :| IsText(j, x) && AddressOf(x, a) {
      TextExact(j, x);
    }
  }

  lemma AsksElementExact(j: Json, t: string)
    ensures AsksElement(j, t) <==> AsString(j).Some? && NormTopic(AsString(j).value) == t
  {
    hide TopicOf, IsText, NormTopic;
    if AsString(j).Some? {
      TextExact(j, AsString(j).value);
      TopicExact(AsString(j).value, t);
    }
    if x :| IsText(j, x) && TopicOf(x, t) {
      TextExact(j, x);
    }
  }

  lemma {:induction false} AddressesParsed(js: seq<Json>)
    ensures Addresses(js).Some? <==> forall k :: 0 <= k < |js| ==> IsScalar(js[k])
    ensures Addresses(js).Some? ==>
      forall a :: a in Addresses(js).value <==> exists k :: 0 <= k < |js| && AsksAddress(js[k], a)
  {
    hide AsksAddress, AsString, NormAddress, IsScalar;
    if js != [] {
      var n := |js| - 1;
      AddressesParsed(js[..n]);
      ScalarHasText(js[n]);
      assert forall k :: 0 <= k < n ==> js[..n][k] == js[k];
      if Addresses(js).Some? {
        forall a ensures a in Addresses(js).value <==> exists k :: 0 <= k < |js| && AsksAddress(js[k], a) {
          AsksAddressExact(js[n], a);
          if a in Addresses(js[..n]).value {
            var k :| 0 <= k < n && AsksAddress(js[..n][k], a);
            assert AsksAddress(js[k], a);
          }
          if k :| 0 <= k < |js| && AsksAddress(js[k], a) {
            assert k < n ==> AsksAddress(js[..n][k], a);
          }
        }
      }
    }
  }

  lemma {:induction false} ElementsParsed(js: seq<Json>)
    ensures NormTopics(js).Some? <==> forall k :: 0 <= k < |js| ==> IsScalar(js[k])
    ensures NormTopics(js).Some? ==>
      forall t :: t in NormTopics(js).value <==> exists k :: 0 <= k < |js| && AsksElement(js[k], t)
  {
    hide AsksElement, AsString, NormTopic, IsScalar;
    if js != [] {
      var n := |js| - 1;
      ElementsParsed(js[..n]);
      ScalarHasText(js[n]);
      assert forall k :: 0 <= k < n ==> js[..n][k] == js[k];
      if NormTopics(js).Some? {
        forall t ensures t in NormTopics(js).value <==> exists k :: 0 <= k < |js| && AsksElement(js[k], t) {
          AsksElementExact(js[n], t);
          if t in NormTopics(js[..n]).value {
            var k :| 0 <= k < n && AsksElement(js[..n][k], t);
            assert AsksElement(js[k], t);
          }
          if k :| 0 <= k < |js| && AsksElement(js[k], t) {
            assert k < n ==> AsksElement(js[..n][k], t);
          }
        }
      }
    }
  }

  lemma PositionParsed(j: Json)
    ensures TopicsOf(j).Some? <==> IsPosition(j)
    ensures TopicsOf(j).Some? ==> forall t :: t in TopicsOf(j).value <==> AsksTopic(j, t)
  {
    if j.Arr? {
      ElementsParsed(j.items);
    } else {
      ScalarHasText(j);
      forall t ensures AsString(j) == Some(t) <==> IsText(j, t) { TextExact(j, t); }
    }
  }

  lemma {:induction false} PositionsParsed(js: seq<Json>)
    ensures Positions(js).Some? <==> forall k :: 0 <= k < |js| ==> IsPosition(js[k])
    ensures Positions(js).Some? ==> forall k :: 0 <= k < |js| ==> TopicsOf(js[k]) == Some(Positions(js).value[k])
  {
    hide IsPosition, TopicsOf;
    if js != [] {
      var n := |js| - 1;
      PositionsParsed(js[..n]);
      PositionParsed(js[n]);
      assert forall k :: 0 <= k < n ==> js[..n][k] == js[k];
    }
  }

  lemma {:induction false} TableIsUnique(t: seq<set<string>>, u: seq<set<string>>)
    requires |t| <= MAX_TOPICS && |u| <= MAX_TOPICS
    requires forall i: nat :: i < MAX_TOPICS ==> TopicsAt(t, i) == TopicsAt(u, i)
    requires (t != [] ==> t[|t| - 1] != {}) && (u != [] ==> u[|u| - 1] != {})
    ensures t == u
  {
    if |t| > 0 {
      assert TopicsAt(t, |t| - 1) == TopicsAt(u, |t| - 1);
    }
    if |u| > 0 {
      assert TopicsAt(t, |u| - 1) == TopicsAt(u, |u| - 1);
    }
    assert forall i: nat :: i < |t| ==> t[i] == TopicsAt(t, i) && u[i] == TopicsAt(u, i);
  }

  lemma AddressesExact(js: seq<Json>, s: set<string>)
    ensures Addresses(js) == Some(s) <==> ReadsAddresses(js, s)
  {
    hide AsksAddress, IsScalar;
    AddressesParsed(js);
    if ReadsAddresses(js, s) {
      assert s == Addresses(js).value;
    }
  }

  lemma TableReads(js: seq<Json>)
    requires Positions(js).Some?
    ensures ReadsTopics(js, Table(Positions(js).value))
  {
    hide AsksTopic, IsPosition, TopicsOf;
    PositionsParsed(js);
    TopicParsing(js);
    var given, table := Positions(js).value, Table(Positions(js).value);
    forall i: nat, t | i < MAX_TOPICS ensures t in TopicsAt(table, i) <==> i < |js| && AsksTopic(js[i], t) {
      if i < |js| {
        PositionParsed(js[i]);
      }
    }
    if table != [] {
      assert TopicsAt(table, |table| - 1) == TopicsAt(given, |table| - 1);
    }
  }

  lemma TopicsExact(js: seq<Json>, table: seq<set<string>>)
    ensures (Positions(js).Some? && Table(Positions(js).value) == table) <==> ReadsTopics(js, table)
  {
    hide AsksTopic, IsPosition;
    PositionsParsed(js);
    if Positions(js).Some? {
      TableReads(js);
      var u := Table(Positions(js).value);
      if ReadsTopics(js, table) {
        forall i: nat | i < MAX_TOPICS ensures TopicsAt(table, i) == TopicsAt(u, i) {
          assert forall t :: t in TopicsAt(table, i) <==> t in TopicsAt(u, i);
        }
        TableIsUnique(table, u);
      }
    }
  }

  lemma NumberExact(fields: map<string, Json>, key: string, n: int)
    ensures AsInt64(FieldOr(fields, key, Int(-1))) == Some(n) <==> ReadsBlock(fields, key, n)
  {
  }

  lemma ListExact(fields: map<string, Json>, key: string, items: seq<Json>)
    ensures Elements(FieldOr(fields, key, Arr([]))) == Some(items) <==> ReadsList(fields, key, items)
  {
  }

  lemma ParamsExact(fields: map<string, Json>, p: Params)
    ensures ParseParams(fields) == Some(p) <==>
      exists adds: seq<Json>, tops: seq<Json> :: ReadsParams(fields, p, adds, tops)
  {
    hide ReadsBlock, ReadsList, ReadsAddresses, ReadsTopics, AsInt64, Elements, FieldOr, Addresses, Positions, Table;
    NumberExact(fields, "fromBlock", p.fromBlock);
    NumberExact(fields, "toBlock", p.toBlock);
    if ParseParams(fields) == Some(p) {
      var adds := Elements(FieldOr(fields, "addresses", Arr([]))).value;
      var tops := Elements(FieldOr(fields, "topics", Arr([]))).value;
      ListExact(fields, "addresses", adds);
      ListExact(fields, "topics", tops);
      AddressesExact(adds, p.addresses);
      TopicsExact(tops, p.topics);
      assert ReadsParams(fields, p, adds, tops);
    }
    if adds: seq<Json>, tops: seq<Json> :| ReadsParams(fields, p, adds, tops) {
      ListExact(fields, "addresses", adds);
      ListExact(fields, "topics", tops);
      AddressesExact(adds, p.addresses);
      TopicsExact(tops, p.topics);
    }
  }

  /** Parsing succeeds on exactly the values that say something, and gives what they say. */
  lemma ParsingExact(root: Json, r: Request)
    ensures ParseRequest(root) == Some(r) <==> Says(root, r)
  {
    hide IsText, AsString, ParseParams, ReadsParams;
    if root.Obj? && "id" in root.fields && "group" in root.fields && "params" in root.fields {
      TextExact(root.fields["id"], r.id);
      TextExact(root.fields["group"], r.group);
      var j := root.fields["params"];
      ParamsExact(if j.Obj? then j.fields else map[], r.params);
    }
  }

  lemma ParsingAlwaysExact(root: Json)
    ensures forall r :: ParseRequest(root) == Some(r) <==> Says(root, r)
  {
    hide ParseRequest, Says;
    forall r ensures ParseRequest(root) == Some(r) <==> Says(root, r) { ParsingExact(root, r); }
  }
}
