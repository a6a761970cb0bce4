/** The AMOP client object with its two tables. `gatewayTopics` is what the messages it has sent to
    the gateway leave there. */
module AmopClient {
  import opened AmopTopics

  ghost predicate ListsOnce(q: seq<string>, s: set<string>) {
    (forall k :: k in q <==> k in s) && (forall i, j :: 0 <= i < j < |q| ==> q[i] != q[j])
  }

  datatype Choice = NoSession | Chosen(session: nat)

  class AMOPClient {
    var topicToSessions: map<string, Sessions>
    var topicInfos: map<string, string>
    var gatewayTopics: set<string>

    function View(): Table
      reads this
    {
      Table(topicToSessions, topicInfos, gatewayTopics)
    }

    constructor ()
      ensures View() == NO_TOPICS
    {
      topicToSessions, topicInfos, gatewayTopics := map[], map[], {};
    }

    method UpdateTopicInfos(items: seq<string>, info: string, endpoint: string, session: nat)
      modifies this`topicToSessions, this`topicInfos
      ensures topicToSessions == WithSession(old(topicToSessions), items, endpoint, session)
      ensures topicInfos == WithAnnouncement(old(topicInfos), items, info)
    {
      for i := 0 to |items|
        invariant topicToSessions == WithSession(old(topicToSessions), items[..i], endpoint, session)
        invariant topicInfos == old(topicInfos)
      {
        assert items[..i + 1][..i] == items[..i];
        topicToSessions := topicToSessions[items[i] := SessionsOf(topicToSessions, items[i])[endpoint := session]];
      }
      assert items[..|items|] == items;
      if |items| > 0 {
        topicInfos := topicInfos[items[0] := info];
      }
    }

    /** The topic names of an announcement: each announced topic once. */
    method GenerateTopicInfo() returns (topics: seq<string>)
      ensures ListsOnce(topics, topicInfos.Keys)
    {
      topics := [];
      var left := topicInfos.Keys;
      while left != {}
        invariant left <= topicInfos.Keys && ListsOnce(topics, topicInfos.Keys - left)
        decreases |left|
      {
        var k :| k in left;
        topics := topics + [k];
        left := left - {k};
      }
    }

    /** Announces every recorded topic to the gateway. */
    method SubscribeTopicToAllNodes()
      modifies this`gatewayTopics
      ensures View() == Apply(old(View()), Resubscribe)
      ensures gatewayTopics == old(gatewayTopics) + topicInfos.Keys
    {
      var topics := GenerateTopicInfo();
      gatewayTopics := gatewayTopics + (set k | k in topics);
    }

    method OnRecvSubTopics(items: seq<string>, info: string, endpoint: string, session: nat)
      modifies this
      ensures View() == Apply(old(View()), Subscribe(items, info, endpoint, session))
      ensures gatewayTopics == old(gatewayTopics) + topicInfos.Keys
    {
      UpdateTopicInfos(items, info, endpoint, session);
      SubscribeTopicToAllNodes();
    }

    method RemoveTopicInfo(topic: string)
      modifies this`topicInfos
      ensures topicInfos == old(topicInfos) - {topic}
    {
      if topic in topicInfos {
        topicInfos := topicInfos - {topic};
      }
    }

    /** Takes the endpoint off every topic; `topicsToRemove` is the list sent to the gateway. */
    method OnClientDisconnect(endpoint: string) returns (topicsToRemove: seq<string>)
      modifies this
      ensures View() == Apply(old(View()), Disconnect(endpoint))
      ensures ListsOnce(topicsToRemove, Dropped(old(topicToSessions), endpoint))
    {
      topicsToRemove := [];
      var left := topicToSessions.Keys;
      ghost var was, dropped := View(), Dropped(topicToSessions, endpoint);
      SweepStarts(was.sessions, was.announced, endpoint);
      while left != {}
        invariant left <= was.sessions.Keys && gatewayTopics == was.gateway
        invariant topicToSessions == SessionsBut(was.sessions, endpoint, left)
        invariant topicInfos == was.announced - (dropped - left)
        invariant ListsOnce(topicsToRemove, dropped - left)
        decreases |left|
      {
        var topic :| topic in left;
        SweepStep(was.sessions, endpoint, left, topic);
        var sessions := topicToSessions[topic] - {endpoint};
        topicToSessions := topicToSessions[topic := sessions];
        if sessions == map[] {
          DropStep(was.announced, topicsToRemove, dropped - left, topic);
          topicsToRemove := topicsToRemove + [topic];
          RemoveTopicInfo(topic);
          topicToSessions := topicToSessions - {topic};
        }
        left := left - {topic};
      }
      assert dropped - left == dropped && (set k | k in topicsToRemove) == dropped;
      gatewayTopics := gatewayTopics - (set k | k in topicsToRemove);
    }

    method QuerySessionsByTopic(topic: string) returns (sessions: Sessions)
      ensures sessions == SessionsOf(topicToSessions, topic)
    {
      if topic in topicToSessions {
        return topicToSessions[topic];
      }
      return map[];
    }

    /** Draws sessions of the topic until one is connected, at most one time more than there are.
        A session is found exactly when the topic has any; it is the last of `draws`. */
    method RandomChooseSession(topic: string, connected: set<nat>) returns (c: Choice, ghost draws: seq<nat>)
      ensures c.NoSession? <==> SessionsOf(topicToSessions, topic) == map[]
      ensures c.Chosen? ==>
        var sessions := SessionsOf(topicToSessions, topic);
        && c.session in sessions.Values
        && 0 < |draws| <= |sessions| + 1 && draws[|draws| - 1] == c.session
        && (forall i :: 0 <= i < |draws| - 1 ==> draws[i] !in connected)
        && (c.session !in connected ==> |draws| == |sessions| + 1)
        && (sessions.Values <= connected ==> c.session in connected)
    {
      draws := [];
      if topic !in topicToSessions {
        return NoSession, draws;
      }
      var sessions := topicToSessions[topic];
      if sessions == map[] {
        return NoSession, draws;
      }
      SomeKey(sessions);
      var endpoint :| endpoint in sessions;
      var selected := sessions[endpoint];
      draws := [selected];
      var retryTime := 1;
      while selected !in connected && retryTime <= |sessions|
        invariant selected in sessions.Values && 1 <= retryTime <= |sessions| + 1
        invariant |draws| == retryTime && draws[|draws| - 1] == selected
        invariant forall i :: 0 <= i < |draws| - 1 ==> draws[i] !in connected
      {
        endpoint :| endpoint in sessions;
        selected := sessions[endpoint];
        draws := draws + [selected];
        retryTime := retryTime + 1;
      }
      return Chosen(selected), draws;
    }
  }

  lemma SomeKey(m: Sessions)
    requires m != map[]
    ensures exists k :: k in m
  {
    assert m.Keys != {};
  }

  /** The session table when the topics of `left` are still to be visited. */
  ghost function SessionsBut(m: map<string, Sessions>, endpoint: string, left: set<string>): map<string, Sessions> {
    map k | k in m && (k in left || k !in Dropped(m, endpoint)) :: if k in left then m[k] else m[k] - {endpoint}
  }

  lemma SweepStarts(m: map<string, Sessions>, announced: map<string, string>, endpoint: string)
    ensures SessionsBut(m, endpoint, m.Keys) == m && SessionsBut(m, endpoint, {}) == WithoutEndpoint(m, endpoint)
    ensures Dropped(m, endpoint) - m.Keys == {} && announced - {} == announced
  {
  }

  lemma DropStep(announced: map<string, string>, q: seq<string>, done: set<string>, topic: string)
    requires ListsOnce(q, done) && topic !in done
    ensures ListsOnce(q + [topic], done + {topic})
    ensures announced - done - {topic} == announced - (done + {topic})
  {
  }

  lemma SweepStep(m: map<string, Sessions>, endpoint: string, left: set<string>, topic: string)
    requires topic in left && topic in m
    ensures var s := m[topic] - {endpoint};
      SessionsBut(m, endpoint, left - {topic}) ==
      if s == map[] then SessionsBut(m, endpoint, left)[topic := s] - {topic} else SessionsBut(m, endpoint, left)[topic := s]
    ensures Dropped(m, endpoint) - (left - {topic}) ==
      if m[topic] - {endpoint} == map[] then (Dropped(m, endpoint) - left) + {topic} else Dropped(m, endpoint) - left
  {
  }
}
