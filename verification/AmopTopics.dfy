/** The topics that local clients subscribe to, those announced to the gateway, and the gateway's own
    view, which is driven by the announcements and removals it is sent. */
module AmopTopics {

  /** The sessions of one topic, by endpoint. */
  type Sessions = map<string, nat>

  datatype Table = Table(sessions: map<string, Sessions>, announced: map<string, string>, gateway: set<string>)

  const NO_TOPICS: Table := Table(map[], map[], {})

  function SessionsOf(m: map<string, Sessions>, topic: string): Sessions {
    if topic in m then m[topic] else map[]
  }

  /** The session table after a client at `endpoint` asked for the topics `items`. */
  function WithSession(m: map<string, Sessions>, items: seq<string>, endpoint: string, session: nat): map<string, Sessions> {
    if items == [] then m
    else
      var m1, topic := WithSession(m, items[..|items| - 1], endpoint, session), items[|items| - 1];
      m1[topic := SessionsOf(m1, topic)[endpoint := session]]
  }

  /** Only the first topic of a subscription is recorded for announcement. */
  function WithAnnouncement(announced: map<string, string>, items: seq<string>, info: string): map<string, string> {
    if items == [] then announced else announced[items[0] := info]
  }

  /** The topics left without a session when the endpoint goes. */
  function Dropped(m: map<string, Sessions>, endpoint: string): set<string> {
    set k | k in m && m[k] - {endpoint} == map[]
  }

  function WithoutEndpoint(m: map<string, Sessions>, endpoint: string): map<string, Sessions> {
    map k | k in m && k !in Dropped(m, endpoint) :: m[k] - {endpoint}
  }

  datatype Action =
    | Subscribe(items: seq<string>, info: string, endpoint: string, session: nat)
    | Disconnect(endpoint: string)
    | Resubscribe

  /** One handler, atomically; a subscription that cannot be parsed changes nothing and is left out. */
  function Apply(t: Table, a: Action): Table {
    match a
    case Subscribe(items, info, endpoint, session) =>
      var announced := WithAnnouncement(t.announced, items, info);
      Table(WithSession(t.sessions, items, endpoint, session), announced, t.gateway + announced.Keys)
    case Disconnect(endpoint) =>
      var dropped := Dropped(t.sessions, endpoint);
      Table(WithoutEndpoint(t.sessions, endpoint), t.announced - dropped, t.gateway - dropped)
    case Resubscribe => t.(gateway := t.gateway + t.announced.Keys)
  }

  function Run(acts: seq<Action>): Table {
    if acts == [] then NO_TOPICS else Apply(Run(acts[..|acts| - 1]), acts[|acts| - 1])
  }

  // ---------- The gateway agrees with the client ----------

  ghost predicate Agreed(t: Table) {
    && t.gateway == t.announced.Keys
    && t.announced.Keys <= t.sessions.Keys
    && forall k :: k in t.sessions ==> t.sessions[k] != map[]
  }

  lemma {:induction false} WithSessionIs(m: map<string, Sessions>, items: seq<string>, endpoint: string, session: nat)
    ensures var m' := WithSession(m, items, endpoint, session);
      forall k :: k in m' <==> k in m || k in items
    ensures var m' := WithSession(m, items, endpoint, session);
      forall k :: k in m' ==> m'[k] == if k in items then SessionsOf(m, k)[endpoint := session] else m[k]
  {
    if items != [] {
      var prev, topic := items[..|items| - 1], items[|items| - 1];
      WithSessionIs(m, prev, endpoint, session);
      assert items == prev + [topic];
      assert forall k :: k in items <==> k in prev || k == topic;
    }
  }

  lemma UpdatedNotEmpty(m: Sessions, endpoint: string, session: nat)
    ensures m[endpoint := session] != map[]
  {
    assert endpoint in m[endpoint := session];
  }

  lemma SubscribeAgrees(t: Table, items: seq<string>, info: string, endpoint: string, session: nat)
    requires Agreed(t)
    ensures Agreed(Apply(t, Subscribe(items, info, endpoint, session)))
  {
    WithSessionIs(t.sessions, items, endpoint, session);
    var m := WithSession(t.sessions, items, endpoint, session);
    forall k | k in m ensures m[k] != map[] {
      UpdatedNotEmpty(SessionsOf(t.sessions, k), endpoint, session);
    }
  }

  /** Over every run of the handlers, the topics the gateway holds for this client are the announced
      ones, and each of them has a session. */
  lemma {:induction false} GatewayAgreement(acts: seq<Action>)
    ensures Agreed(Run(acts))
  {
    if acts != [] {
      var t, a := Run(acts[..|acts| - 1]), acts[|acts| - 1];
      GatewayAgreement(acts[..|acts| - 1]);
      match a
      case Subscribe(items, info, endpoint, session) => SubscribeAgrees(t, items, info, endpoint, session);
      case Disconnect(_) =>
      case Resubscribe =>
    }
  }

  /** Whatever the gateway has lost, announcing again restores the agreement, and so does the next
      subscription. */
  lemma AnnouncingRestores(acts: seq<Action>, kept: set<string>,
                           items: seq<string>, info: string, endpoint: string, session: nat)
    requires kept <= Run(acts).gateway
    ensures Agreed(Apply(Run(acts).(gateway := kept), Resubscribe))
    ensures Apply(Run(acts).(gateway := kept), Resubscribe) == Run(acts)
    ensures Agreed(Apply(Run(acts).(gateway := kept), Subscribe(items, info, endpoint, session)))
  {
    GatewayAgreement(acts);
    var t := Run(acts).(gateway := kept);
    SubscribeAgrees(Run(acts), items, info, endpoint, session);
    assert kept + WithAnnouncement(t.announced, items, info).Keys == WithAnnouncement(t.announced, items, info).Keys;
  }

  /** A unicast that the gateway forwards for a topic it holds always finds a session here. */
  lemma UnicastFindsSession(acts: seq<Action>, topic: string)
    requires topic in Run(acts).gateway
    ensures SessionsOf(Run(acts).sessions, topic) != map[]
  {
    GatewayAgreement(acts);
  }

  // ---------- The reference: what the history says about one topic ----------

  /** The action is a subscription by the endpoint that names the topic. */
  predicate Names(a: Action, topic: string, endpoint: string) {
    a.Subscribe? && a.endpoint == endpoint && topic in a.items
  }

  predicate NamesFirst(a: Action, topic: string) {
    a.Subscribe? && a.items != [] && a.items[0] == topic
  }

  predicate Leaves(a: Action, endpoint: string) {
    a.Disconnect? && a.endpoint == endpoint
  }

  /** The endpoint's last subscription that names the topic came with this session, and the endpoint
      has not disconnected since. */
  ghost predicate Serves(acts: seq<Action>, topic: string, endpoint: string, session: nat) {
    exists i :: 0 <= i < |acts| &&
      Names(acts[i], topic, endpoint) && acts[i].session == session && Last(acts, topic, endpoint, i)
  }

  ghost predicate Last(acts: seq<Action>, topic: string, endpoint: string, i: nat) {
    forall j :: i < j < |acts| ==> !Names(acts[j], topic, endpoint) && !Leaves(acts[j], endpoint)
  }

  ghost predicate HasClient(acts: seq<Action>, topic: string) {
    exists endpoint, session :: Serves(acts, topic, endpoint, session)
  }

  /** Some subscription named the topic first, and ever since then the topic had a client. */
  ghost predicate Announced(acts: seq<Action>, topic: string) {
    exists i :: 0 <= i < |acts| && NamesFirst(acts[i], topic) && ServedSince(acts, topic, i)
  }

  ghost predicate ServedSince(acts: seq<Action>, topic: string, i: nat) {
    forall j :: i < j <= |acts| ==> HasClient(acts[..j], topic)
  }

  lemma ServesGrows(acts: seq<Action>, a: Action, topic: string, endpoint: string, session: nat)
    ensures Serves(acts + [a], topic, endpoint, session) <==>
      if Names(a, topic, endpoint) then a.session == session
      else Serves(acts, topic, endpoint, session) && !Leaves(a, endpoint)
  {
    var h := acts + [a];
    if Names(a, topic, endpoint) && a.session == session {
      assert h[|acts|] == a && Last(h, topic, endpoint, |acts|);
    }
    if !Names(a, topic, endpoint) && !Leaves(a, endpoint) && Serves(acts, topic, endpoint, session) {
      var i :| 0 <= i < |acts| &&
        Names(acts[i], topic, endpoint) && acts[i].session == session && Last(acts, topic, endpoint, i);
      assert h[i] == acts[i] && Last(h, topic, endpoint, i);
    }
    if Serves(h, topic, endpoint, session) {
      var i :| 0 <= i < |h| && Names(h[i], topic, endpoint) && h[i].session == session && Last(h, topic, endpoint, i);
      assert h[|acts|] == a;
      if i < |acts| {
        assert h[i] == acts[i];
        forall j | i < j < |acts| ensures !Names(acts[j], topic, endpoint) && !Leaves(acts[j], endpoint) {
          assert acts[j] == h[j];
        }
        assert Last(acts, topic, endpoint, i);
      }
    }
  }

  lemma AnnouncedGrows(acts: seq<Action>, a: Action, topic: string)
    ensures Announced(acts + [a], topic) <==>
      HasClient(acts + [a], topic) && (NamesFirst(a, topic) || Announced(acts, topic))
  {
    var h := acts + [a];
    assert h[..|h|] == h;
    assert forall j :: 0 <= j <= |acts| ==> h[..j] == acts[..j];
    if HasClient(h, topic) && NamesFirst(a, topic) {
      assert h[|acts|] == a && ServedSince(h, topic, |acts|);
    }
    if HasClient(h, topic) && Announced(acts, topic) {
      var i :| 0 <= i < |acts| && NamesFirst(acts[i], topic) && ServedSince(acts, topic, i);
      assert h[i] == acts[i] && ServedSince(h, topic, i);
    }
    if Announced(h, topic) {
      var i :| 0 <= i < |h| && NamesFirst(h[i], topic) && ServedSince(h, topic, i);
      assert HasClient(h[..|h|], topic);
      if i < |acts| {
        assert h[i] == acts[i] && ServedSince(acts, topic, i);
      }
    }
  }

  /** The sessions `s` are exactly the clients that the history gives the topic. */
  ghost predicate AreClients(s: Sessions, acts: seq<Action>, topic: string) {
    forall endpoint, session :: Serves(acts, topic, endpoint, session) <==> endpoint in s && s[endpoint] == session
  }

  lemma SomeClient(s: Sessions, acts: seq<Action>, topic: string)
    requires AreClients(s, acts, topic)
    ensures HasClient(acts, topic) <==> s != map[]
  {
    if s != map[] {
      assert s.Keys != {};
      var endpoint :| endpoint in s;
      assert Serves(acts, topic, endpoint, s[endpoint]);
    }
  }

  /** What one action does to the sessions of a topic and to its announcement. */
  lemma SessionsAfter(t: Table, a: Action, topic: string)
    ensures SessionsOf(Apply(t, a).sessions, topic) ==
      match a
      case Subscribe(items, _, endpoint, session) =>
        if topic in items then SessionsOf(t.sessions, topic)[endpoint := session] else SessionsOf(t.sessions, topic)
      case Disconnect(endpoint) => SessionsOf(t.sessions, topic) - {endpoint}
      case Resubscribe => SessionsOf(t.sessions, topic)
  {
    if a.Subscribe? {
      WithSessionIs(t.sessions, a.items, a.endpoint, a.session);
    }
  }

  lemma AnnouncedAfter(t: Table, a: Action, topic: string)
    requires Agreed(t)
    ensures topic in Apply(t, a).announced <==>
      SessionsOf(Apply(t, a).sessions, topic) != map[] && (NamesFirst(a, topic) || topic in t.announced)
  {
    SessionsAfter(t, a, topic);
    match a
    case Subscribe(items, _, endpoint, session) =>
      UpdatedNotEmpty(SessionsOf(t.sessions, topic), endpoint, session);
      assert NamesFirst(a, topic) ==> topic in items;
    case Disconnect(_) =>
    case Resubscribe =>
  }

  lemma ClientsAfter(t: Table, acts: seq<Action>, a: Action, topic: string)
    requires AreClients(SessionsOf(t.sessions, topic), acts, topic)
    ensures AreClients(SessionsOf(Apply(t, a).sessions, topic), acts + [a], topic)
  {
    SessionsAfter(t, a, topic);
    var s, s' := SessionsOf(t.sessions, topic), SessionsOf(Apply(t, a).sessions, topic);
    forall endpoint, session
      ensures Serves(acts + [a], topic, endpoint, session) <==> endpoint in s' && s'[endpoint] == session
    {
      ServesGrows(acts, a, topic, endpoint, session);
    }
  }

  /** The tables follow each topic's own history: the sessions of a topic are those of the endpoints
      whose last subscription naming it no disconnect has followed, it is in the table exactly while
      there is one, and it is announced exactly if some subscription named it first after which it
      always had a client. */
  lemma {:induction false} TablesFollowHistory(acts: seq<Action>, topic: string)
    ensures var t := Run(acts);
      && AreClients(SessionsOf(t.sessions, topic), acts, topic)
      && (topic in t.sessions <==> HasClient(acts, topic))
      && (topic in t.announced <==> Announced(acts, topic))
  {
    GatewayAgreement(acts);
    if acts != [] {
      var prev, a := acts[..|acts| - 1], acts[|acts| - 1];
      assert prev + [a] == acts;
      TablesFollowHistory(prev, topic);
      ClientsAfter(Run(prev), prev, a, topic);
      GatewayAgreement(prev);
      AnnouncedAfter(Run(prev), a, topic);
      AnnouncedGrows(prev, a, topic);
    }
    SomeClient(SessionsOf(Run(acts).sessions, topic), acts, topic);
  }

  /** The last subscription that names the topic first came with this text. */
  ghost predicate LastInfo(acts: seq<Action>, topic: string, info: string) {
    exists i :: 0 <= i < |acts| && NamesFirst(acts[i], topic) && acts[i].info == info && NoneFirstAfter(acts, topic, i)
  }

  ghost predicate NoneFirstAfter(acts: seq<Action>, topic: string, i: nat) {
    forall j :: i < j < |acts| ==> !NamesFirst(acts[j], topic)
  }

  /** What is recorded with an announced topic is the last subscription that named it first. */
  lemma {:induction false} InfoFollowsHistory(acts: seq<Action>, topic: string)
    requires topic in Run(acts).announced
    ensures LastInfo(acts, topic, Run(acts).announced[topic])
  {
    var prev, a := acts[..|acts| - 1], acts[|acts| - 1];
    var info := Run(acts).announced[topic];
    if NamesFirst(a, topic) {
      assert NoneFirstAfter(acts, topic, |acts| - 1);
    } else {
      assert topic in Run(prev).announced && Run(prev).announced[topic] == info;
      InfoFollowsHistory(prev, topic);
      var i :| 0 <= i < |prev| && NamesFirst(prev[i], topic) && prev[i].info == info && NoneFirstAfter(prev, topic, i);
      assert acts[i] == prev[i] && forall j :: i < j < |prev| ==> acts[j] == prev[j];
      assert NoneFirstAfter(acts, topic, i);
    }
  }

  // ---------- Disconnecting ----------

  /** From every reachable table, a disconnect takes the endpoint off every topic, changes no other
      session, and drops exactly the topics that the endpoint alone served. */
  lemma DisconnectExact(acts: seq<Action>, endpoint: string)
    ensures var t, t' := Run(acts), Apply(Run(acts), Disconnect(endpoint));
      && (forall k :: SessionsOf(t'.sessions, k) == SessionsOf(t.sessions, k) - {endpoint})
      && (forall k :: k in Dropped(t.sessions, endpoint) <==> k in t.sessions && t.sessions[k].Keys == {endpoint})
      && t'.sessions.Keys == t.sessions.Keys - Dropped(t.sessions, endpoint)
      && (forall k :: k in t'.sessions ==> t'.sessions[k] != map[])
  {
    GatewayAgreement(acts);
    var t := Run(acts);
    forall k | k in t.sessions
      ensures t.sessions[k] - {endpoint} == map[] <==> t.sessions[k].Keys == {endpoint}
    {
      OnlyEndpoint(t.sessions[k], endpoint);
    }
  }

  lemma OnlyEndpoint(m: Sessions, endpoint: string)
    requires m != map[]
    ensures m - {endpoint} == map[] <==> m.Keys == {endpoint}
  {
    assert (m - {endpoint}).Keys == m.Keys - {endpoint};
    if m.Keys == {endpoint} {
      assert (m - {endpoint}).Keys == {};
    }
    if m - {endpoint} == map[] {
      assert m.Keys - {endpoint} == {};
      assert m.Keys != {};
    }
  }

  // ---------- Which subscribed topics are announced ----------

  ghost predicate AllAnnounced(t: Table) {
    t.announced.Keys == t.sessions.Keys
  }

  /** A second topic of a subscription has a session but the gateway does not learn of it. */
  lemma SecondTopicUnannounced(a: string, b: string, info: string, endpoint: string, session: nat)
    requires a != b
    ensures var t := Run([Subscribe([a, b], info, endpoint, session)]);
      b in t.sessions && b !in t.gateway && !AllAnnounced(t)
  {
    var acts := [Subscribe([a, b], info, endpoint, session)];
    assert acts[..0] == [];
    WithSessionIs(map[], [a, b], endpoint, session);
    assert b in [a, b];
  }

  /** After a subscription all topics with sessions are announced exactly when those before it were,
      or became so by being its first topic, and all its own topics are its first or were announced. */
  lemma AnnouncedExactly(t: Table, items: seq<string>, info: string, endpoint: string, session: nat)
    requires Agreed(t)
    ensures AllAnnounced(Apply(t, Subscribe(items, info, endpoint, session))) <==>
      forall k :: k in t.sessions || k in items ==> k in t.announced || (items != [] && k == items[0])
  {
    WithSessionIs(t.sessions, items, endpoint, session);
    var t' := Apply(t, Subscribe(items, info, endpoint, session));
    assert items != [] ==> items[0] in items;
    assert forall k :: k in t'.sessions <==> k in t.sessions || k in items;
    assert forall k :: k in t'.announced <==> k in t.announced || (items != [] && k == items[0]);
  }

  /** If no subscription names two different topics, everything subscribed is announced. */
  lemma {:induction false} SingleTopicsAnnounced(acts: seq<Action>)
    requires forall a, i :: a in acts && a.Subscribe? && 0 <= i < |a.items| ==> a.items[i] == a.items[0]
    ensures AllAnnounced(Run(acts))
  {
    if acts != [] {
      var prev, a := acts[..|acts| - 1], acts[|acts| - 1];
      SingleTopicsAnnounced(prev);
      GatewayAgreement(prev);
      assert a in acts;
      if a.Subscribe? {
        AnnouncedExactly(Run(prev), a.items, a.info, a.endpoint, a.session);
      }
    }
  }
}
