// The coordinator's connection and topic tables, kept beside those of its provider.
module Coordination {
  import opened SocketValidation
  import opened SocketTables
  import opened InProcess

  // `connections` holds, for each tracked socket, the topics recorded on its connection object.
  datatype Coordinator = Coordinator(
    connections: map<string, set<string>>,
    topicSubscriptions: map<string, set<string>>,
    provider: Tables
  )

  const FRESH := Coordinator(map[], map[], EMPTY)

  function Connected(c: Coordinator, s: string): Coordinator {
    if s in c.connections then c else c.(connections := c.connections[s := {}])
  }

  // The coordinator records the subscription before the provider checks the ids.
  function Subscribed(c: Coordinator, s: string, topic: string): Coordinator {
    if s !in c.connections || s in Get(c.topicSubscriptions, topic) then c
    else
      Coordinator(
        c.connections[s := c.connections[s] + {topic}],
        c.topicSubscriptions[topic := Get(c.topicSubscriptions, topic) + {s}],
        ApplyInProcess(c.provider, SubscribeCall(s, topic)))
  }

  function Unsubscribed(c: Coordinator, s: string, topic: string): Coordinator {
    if s !in c.connections then c
    else
      Coordinator(
        c.connections[s := c.connections[s] - {topic}],
        Shrink(c.topicSubscriptions, topic, s),
        ApplyInProcess(c.provider, UnsubscribeCall(s, topic)))
  }

  // The unsubscribes of a removal, one for each of `topics`.
  function Cleaned(c: Coordinator, s: string, topics: seq<string>): Coordinator {
    if topics == [] then c else Unsubscribed(Cleaned(c, s, topics[..|topics| - 1]), s, topics[|topics| - 1])
  }

  // The position of the first topic whose unsubscribe throws; the length when there is none.
  function FirstMalformed(s: string, topics: seq<string>): (i: nat)
    ensures i <= |topics|
    ensures i < |topics| ==> !ValidPair(s, topics[i])
    ensures forall j :: 0 <= j < i ==> ValidPair(s, topics[j])
  {
    if topics == [] || !ValidPair(s, topics[0]) then 0 else 1 + FirstMalformed(s, topics[1..])
  }

  // A removal that cleans the topics of the connection in the order `topics`; a throw ends it early,
  // after the tables of the coordinator have been changed.
  function Removed(c: Coordinator, s: string, topics: seq<string>): Coordinator {
    var i := FirstMalformed(s, topics);
    if s !in c.connections then c
    else if i < |topics| then Cleaned(c, s, topics[..i + 1])
    else var c' := Cleaned(c, s, topics); c'.(connections := c'.connections - {s})
  }

  // ---------------------------------------------------------------------
  // What the tables index
  // ---------------------------------------------------------------------

  function ValidPart(r: Relation): Relation { set p | p in r && ValidPair(p.0, p.1) }

  // The coordinator and the connections index `r`; the provider indexes its well-formed pairs.
  ghost predicate Indexes(c: Coordinator, r: Relation) {
    && c.provider == TablesOf(ValidPart(r))
    && c.topicSubscriptions == TablesOf(r).local
    && (forall s :: s in c.connections ==> c.connections[s] == TopicsOf(r, s))
    && (forall p :: p in r ==> p.0 in c.connections)
  }

  // All four tables are views of the one relation `r`.
  ghost predicate OneRelation(c: Coordinator, r: Relation) {
    && c.provider == TablesOf(r)
    && c.topicSubscriptions == TablesOf(r).local
    && (forall s :: s in c.connections ==> c.connections[s] == TopicsOf(r, s))
    && (forall p :: p in r ==> p.0 in c.connections && ValidPair(p.0, p.1))
  }

  lemma LocalDeterminesRelation(r: Relation, r': Relation)
    requires TablesOf(r).local == TablesOf(r').local
    ensures r == r'
  {
    forall p ensures p in r <==> p in r' {
      LocalOf(r, p.1);
      LocalOf(r', p.1);
      assert (p.0, p.1) == p;
      assert p.0 in SocketsOf(r, p.1) <==> p in r;
      assert p.0 in SocketsOf(r', p.1) <==> p in r';
    }
  }

  // The tables are views of one relation exactly when no malformed pair is live.
  lemma OneRelationExactly(c: Coordinator, r: Relation)
    requires Indexes(c, r)
    ensures (exists r' :: OneRelation(c, r')) <==> OneRelation(c, r)
    ensures OneRelation(c, r) <==> forall p :: p in r ==> ValidPair(p.0, p.1)
  {
    if forall p :: p in r ==> ValidPair(p.0, p.1) { assert ValidPart(r) == r; }
    forall r' | OneRelation(c, r') ensures OneRelation(c, r) { LocalDeterminesRelation(r, r'); }
  }

  lemma OneRelationIsIndexed(c: Coordinator, r: Relation)
    requires OneRelation(c, r)
    ensures Indexes(c, r)
  {
    assert ValidPart(r) == r;
  }

  // ---------------------------------------------------------------------
  // One call, whatever the ids
  // ---------------------------------------------------------------------

  lemma TopicsAfter(r: Relation, r': Relation, s: string, topic: string, k: string)
    requires r' == r + {(s, topic)} || r' == r - {(s, topic)}
    ensures TopicsOf(r', k) ==
      if k != s then TopicsOf(r, k)
      else if (s, topic) in r' then TopicsOf(r, k) + {topic} else TopicsOf(r, k) - {topic}
  {
    SocketsIndexOf(r, k);
    SocketsIndexOf(r', k);
  }

  lemma ConnectIndexes(c: Coordinator, r: Relation, s: string)
    requires Indexes(c, r)
    ensures Indexes(Connected(c, s), r)
  {
    if s !in c.connections {
      SocketsIndexOf(r, s);
      forall t ensures t !in TopicsOf(r, s) { assert (s, t) !in r; }
    }
  }

  // The provider indexes the well-formed pairs, whatever it is called with.
  lemma ProviderSubscribes(r: Relation, s: string, topic: string)
    ensures ApplyInProcess(TablesOf(ValidPart(r)), SubscribeCall(s, topic)) == TablesOf(ValidPart(r + {(s, topic)}))
  {
    AddIndexes(ValidPart(r), s, topic);
    assert ValidPart(r + {(s, topic)}) == if ValidPair(s, topic) then ValidPart(r) + {(s, topic)} else ValidPart(r);
  }

  lemma ProviderUnsubscribes(r: Relation, s: string, topic: string)
    ensures ApplyInProcess(TablesOf(ValidPart(r)), UnsubscribeCall(s, topic)) == TablesOf(ValidPart(r - {(s, topic)}))
  {
    RemoveIndexes(ValidPart(r), s, topic);
    assert ValidPart(r - {(s, topic)}) == if ValidPair(s, topic) then ValidPart(r) - {(s, topic)} else ValidPart(r);
  }

  lemma SubscribeIndexes(c: Coordinator, r: Relation, s: string, topic: string)
    requires Indexes(c, r)
    ensures Indexes(Subscribed(c, s, topic), if s in c.connections then r + {(s, topic)} else r)
  {
    if s in c.connections {
      var c', r' := Subscribed(c, s, topic), r + {(s, topic)};
      LocalOf(r, topic);
      if s in Get(c.topicSubscriptions, topic) {
        assert r' == r && c' == c;
      } else {
        AddIndexes(r, s, topic);
        ProviderSubscribes(r, s, topic);
        forall k | k in c'.connections ensures c'.connections[k] == TopicsOf(r', k) { TopicsAfter(r, r', s, topic, k); }
      }
    }
  }

  lemma UnsubscribeIndexes(c: Coordinator, r: Relation, s: string, topic: string)
    requires Indexes(c, r)
    ensures Indexes(Unsubscribed(c, s, topic), if s in c.connections then r - {(s, topic)} else r)
  {
    if s in c.connections {
      var c', r' := Unsubscribed(c, s, topic), r - {(s, topic)};
      RemoveIndexes(r, s, topic);
      RemoveIsShrink(TablesOf(r), s, topic);
      ProviderUnsubscribes(r, s, topic);
      forall k | k in c'.connections ensures c'.connections[k] == TopicsOf(r', k) { TopicsAfter(r, r', s, topic, k); }
    }
  }

  function Without(r: Relation, s: string, topics: seq<string>): Relation {
    set p | p in r && !(p.0 == s && p.1 in topics)
  }

  lemma {:induction false} CleaningIndexes(c: Coordinator, r: Relation, s: string, topics: seq<string>)
    requires Indexes(c, r) && s in c.connections
    ensures var c' := Cleaned(c, s, topics);
      Indexes(c', Without(r, s, topics)) && c'.connections.Keys == c.connections.Keys
  {
    if topics == [] {
      assert Without(r, s, []) == r;
    } else {
      var rest, topic := topics[..|topics| - 1], topics[|topics| - 1];
      CleaningIndexes(c, r, s, rest);
      UnsubscribeIndexes(Cleaned(c, s, rest), Without(r, s, rest), s, topic);
      assert topics == rest + [topic];
      assert Without(r, s, topics) == Without(r, s, rest) - {(s, topic)};
    }
  }

  // What a removal leaves live: without a throw nothing of the socket, otherwise the topics not yet cleaned.
  function Left(r: Relation, s: string, topics: seq<string>): Relation {
    var i := FirstMalformed(s, topics);
    if i < |topics| then Without(r, s, topics[..i + 1]) else Without(r, s, topics)
  }

  ghost predicate Enumerates(topics: seq<string>, all: set<string>) {
    && (forall t :: t in topics <==> t in all)
    && forall i, j :: 0 <= i < j < |topics| ==> topics[i] != topics[j]
  }

  lemma RemovalIndexes(c: Coordinator, r: Relation, s: string, topics: seq<string>)
    requires Indexes(c, r) && s in c.connections && Enumerates(topics, c.connections[s])
    ensures Indexes(Removed(c, s, topics), Left(r, s, topics))
    ensures FirstMalformed(s, topics) == |topics| ==> Left(r, s, topics) == set p | p in r && p.0 != s
    ensures Removed(c, s, topics).connections.Keys ==
      if FirstMalformed(s, topics) < |topics| then c.connections.Keys else c.connections.Keys - {s}
  {
    var i := FirstMalformed(s, topics);
    CleaningIndexes(c, r, s, if i < |topics| then topics[..i + 1] else topics);
    if i == |topics| {
      SocketsIndexOf(r, s);
      forall p | p in r && p.0 == s ensures p.1 in topics { assert (s, p.1) == p; }
      assert Left(r, s, topics) == set p | p in r && p.0 != s;
    }
  }

  // ---------------------------------------------------------------------
  // The calls that keep one relation
  // ---------------------------------------------------------------------

  // A subscription keeps the tables in step exactly when it does not reach the provider with a malformed id.
  lemma SubscribeKeepsOneRelationExactly(c: Coordinator, r: Relation, s: string, topic: string)
    requires OneRelation(c, r)
    ensures (exists r' :: OneRelation(Subscribed(c, s, topic), r')) <==>
      !(s in c.connections && !ValidPair(s, topic))
    ensures s in c.connections && ValidPair(s, topic) ==> OneRelation(Subscribed(c, s, topic), r + {(s, topic)})
  {
    OneRelationIsIndexed(c, r);
    SubscribeIndexes(c, r, s, topic);
    var r' := if s in c.connections then r + {(s, topic)} else r;
    OneRelationExactly(Subscribed(c, s, topic), r');
    assert s in c.connections ==> (s, topic) in r';
  }

  lemma UnsubscribeKeepsOneRelation(c: Coordinator, r: Relation, s: string, topic: string)
    requires OneRelation(c, r)
    ensures OneRelation(Unsubscribed(c, s, topic), if s in c.connections then r - {(s, topic)} else r)
  {
    OneRelationIsIndexed(c, r);
    UnsubscribeIndexes(c, r, s, topic);
    OneRelationExactly(Unsubscribed(c, s, topic), if s in c.connections then r - {(s, topic)} else r);
  }

  // A removal from consistent tables does not throw.
  lemma RemovalKeepsOneRelation(c: Coordinator, r: Relation, s: string, topics: seq<string>)
    requires OneRelation(c, r) && s in c.connections && Enumerates(topics, c.connections[s])
    ensures FirstMalformed(s, topics) == |topics|
    ensures OneRelation(Removed(c, s, topics), set p | p in r && p.0 != s)
  {
    OneRelationIsIndexed(c, r);
    RemovalIndexes(c, r, s, topics);
    SocketsIndexOf(r, s);
    forall t | t in topics ensures ValidPair(s, t) { assert (s, t) in r; }
    OneRelationExactly(Removed(c, s, topics), set p | p in r && p.0 != s);
  }

  // ---------------------------------------------------------------------
  // Whole runs
  // ---------------------------------------------------------------------

  // A removal enumerates the topics of the connection in some order.
  datatype Event =
    | Connect(s: string)
    | Subscribe(s: string, topic: string)
    | Unsubscribe(s: string, topic: string)
    | Close(s: string, topics: seq<string>)

  ghost predicate Enabled(c: Coordinator, e: Event) {
    e.Close? && e.s in c.connections ==> Enumerates(e.topics, c.connections[e.s])
  }

  function Handle(c: Coordinator, e: Event): Coordinator {
    match e
    case Connect(s) => Connected(c, s)
    case Subscribe(s, topic) => Subscribed(c, s, topic)
    case Unsubscribe(s, topic) => Unsubscribed(c, s, topic)
    case Close(s, topics) => Removed(c, s, topics)
  }

  ghost predicate Legal(c: Coordinator, events: seq<Event>)
    decreases |events|
  {
    events == [] || (Enabled(c, events[0]) && Legal(Handle(c, events[0]), events[1..]))
  }

  function Run(c: Coordinator, events: seq<Event>): Coordinator
    decreases |events|
  {
    if events == [] then c else Run(Handle(c, events[0]), events[1..])
  }

  // The live subscriptions after `events`, given the connected sockets and the earlier subscriptions.
  function Live(connected: set<string>, r: Relation, events: seq<Event>): Relation
    decreases |events|
  {
    if events == [] then r
    else
      var rest := events[1..];
      match events[0]
      case Connect(s) => Live(connected + {s}, r, rest)
      case Subscribe(s, topic) => Live(connected, if s in connected then r + {(s, topic)} else r, rest)
      case Unsubscribe(s, topic) => Live(connected, if s in connected then r - {(s, topic)} else r, rest)
      case Close(s, topics) =>
        if s !in connected then Live(connected, r, rest)
        else
          Live(if FirstMalformed(s, topics) < |topics| then connected else connected - {s}, Left(r, s, topics), rest)
  }

  lemma {:induction false} RunsIndex(c: Coordinator, r: Relation, events: seq<Event>)
    requires Indexes(c, r) && Legal(c, events)
    ensures Indexes(Run(c, events), Live(c.connections.Keys, r, events))
    decreases |events|
  {
    if events != [] {
      var c', rest := Handle(c, events[0]), events[1..];
      match events[0] {
        case Connect(s) =>
          ConnectIndexes(c, r, s);
          assert c'.connections.Keys == c.connections.Keys + {s};
          RunsIndex(c', r, rest);
        case Subscribe(s, topic) =>
          SubscribeIndexes(c, r, s, topic);
          assert c'.connections.Keys == c.connections.Keys;
          RunsIndex(c', if s in c.connections then r + {(s, topic)} else r, rest);
        case Unsubscribe(s, topic) =>
          UnsubscribeIndexes(c, r, s, topic);
          assert c'.connections.Keys == c.connections.Keys;
          RunsIndex(c', if s in c.connections then r - {(s, topic)} else r, rest);
        case Close(s, topics) =>
          if s in c.connections { RemovalIndexes(c, r, s, topics); }
          RunsIndex(c', if s in c.connections then Left(r, s, topics) else r, rest);
      }
    }
  }

  // In every run the coordinator and the connections index the live subscriptions and the provider the
  // well-formed ones, so all tables are views of one relation exactly when no malformed pair is live.
  lemma ReachableTablesAreOneRelation(events: seq<Event>)
    requires Legal(FRESH, events)
    ensures var c, r := Run(FRESH, events), Live({}, {}, events);
      && Indexes(c, r)
      && ((exists r' :: OneRelation(c, r')) <==> forall p :: p in r ==> ValidPair(p.0, p.1))
  {
    assert TablesOf({}) == EMPTY;
    assert ValidPart({}) == {};
    assert FRESH.connections.Keys == {};
    RunsIndex(FRESH, {}, events);
    OneRelationExactly(Run(FRESH, events), Live({}, {}, events));
  }

  // A removal throws exactly when the connection has a malformed topic. Then the connection stays, with
  // fewer topics; otherwise the socket appears nowhere afterwards.
  lemma RemovalLeavesNoTrace(c: Coordinator, r: Relation, s: string, topics: seq<string>)
    requires Indexes(c, r) && s in c.connections && Enumerates(topics, c.connections[s])
    ensures var c' := Removed(c, s, topics);
      if exists t :: t in c.connections[s] && !ValidPair(s, t) then
        s in c'.connections && c'.connections[s] < c.connections[s]
      else
        && s !in c'.connections && s !in c'.provider.sockets && s !in c'.provider.connected
        && forall t :: s !in Get(c'.topicSubscriptions, t) && s !in Get(c'.provider.local, t)
  {
    RemovalIndexes(c, r, s, topics);
    var c', r', i := Removed(c, s, topics), Left(r, s, topics), FirstMalformed(s, topics);
    SocketsIndexOf(r, s);
    SocketsIndexOf(r', s);
    if i < |topics| {
      var t := topics[i];
      assert t in c.connections[s] && !ValidPair(s, t);
      assert t in topics[..i + 1];
      assert (s, t) !in r';
    } else {
      assert forall t :: t in topics ==> ValidPair(s, t);
      SocketsIndexOf(ValidPart(r'), s);
      forall t ensures s !in Get(c'.topicSubscriptions, t) && s !in Get(c'.provider.local, t) {
        LocalOf(r', t);
        LocalOf(ValidPart(r'), t);
      }
    }
  }

  // With a malformed topic the coordinator and its provider part ways and the removal throws;
  // unsubscribing the topic brings them together again.
  lemma MalformedTopicSplitsTables(s: string)
    requires ValidSocketId(s)
    ensures var c := Subscribed(Connected(FRESH, s), s, "");
      && "" in c.topicSubscriptions && "" in c.connections[s] && c.provider == EMPTY
      && !(exists r :: OneRelation(c, r))
      && FirstMalformed(s, [""]) == 0 && s in Removed(c, s, [""]).connections
      && OneRelation(Unsubscribed(c, s, ""), {})
  {
    assert !ValidTopic("");
    assert TablesOf({}) == EMPTY;
    var c0 := Connected(FRESH, s);
    assert OneRelation(c0, {});
    SubscribeKeepsOneRelationExactly(c0, {}, s, "");
    OneRelationIsIndexed(c0, {});
    SubscribeIndexes(c0, {}, s, "");
    var c := Subscribed(c0, s, "");
    UnsubscribeIndexes(c, {} + {(s, "")}, s, "");
    assert {} + {(s, "")} - {(s, "")} == {};
    OneRelationExactly(Unsubscribed(c, s, ""), {});
    CleaningIndexes(c, {} + {(s, "")}, s, [""][..1]);
  }

  class SocketCoordinator {
    const provider: InProcWsProvider
    var connections: map<string, set<string>>
    var topicSubscriptions: map<string, set<string>>

    function State(): Coordinator
      reads this, provider
    {
      Coordinator(connections, topicSubscriptions, provider.State())
    }

    constructor (provider: InProcWsProvider)
      requires provider.State() == EMPTY
      ensures this.provider == provider && State() == FRESH
    {
      this.provider := provider;
      connections, topicSubscriptions := map[], map[];
    }

    method AddConnection(s: string)
      modifies this
      ensures State() == Connected(old(State()), s)
    {
      if s in connections { return; }
      connections := connections[s := {}];
    }

    method SubscribeToTopic(s: string, topic: string) returns (threw: bool)
      modifies this, provider
      ensures State() == Subscribed(old(State()), s, topic)
      ensures threw <==>
        s in old(connections) && s !in Get(old(topicSubscriptions), topic) && !ValidPair(s, topic)
    {
      if s !in connections { return false; }
      if topic !in topicSubscriptions {
        topicSubscriptions := topicSubscriptions[topic := {}];
      }
      if s in topicSubscriptions[topic] { return false; }
      topicSubscriptions := topicSubscriptions[topic := topicSubscriptions[topic] + {s}];
      assert topicSubscriptions == old(topicSubscriptions)[topic := Get(old(topicSubscriptions), topic) + {s}];
      connections := connections[s := connections[s] + {topic}];
      threw := provider.Subscribe(s, topic);
    }

    method UnsubscribeFromTopic(s: string, topic: string) returns (threw: bool)
      modifies this, provider
      ensures State() == Unsubscribed(old(State()), s, topic)
      ensures threw <==> s in old(connections) && !ValidPair(s, topic)
    {
      if s !in connections { return false; }
      if topic in topicSubscriptions {
        var subscribers := topicSubscriptions[topic] - {s};
        topicSubscriptions := topicSubscriptions[topic := subscribers];
        if subscribers == {} {
          topicSubscriptions := topicSubscriptions - {topic};
        }
      }
      assert topicSubscriptions == Shrink(old(topicSubscriptions), topic, s);
      connections := connections[s := connections[s] - {topic}];
      threw := provider.Unsubscribe(s, topic);
    }

    // Unsubscribes from every topic of the connection, in the order copied before; a throwing
    // unsubscribe ends the removal early.
    method RemoveConnection(s: string) returns (threw: bool, topicsToClean: seq<string>)
      modifies this, provider
      ensures s in old(connections) ==> Enumerates(topicsToClean, old(connections)[s])
      ensures State() == Removed(old(State()), s, topicsToClean)
      ensures threw <==> s in old(connections) && exists t :: t in old(connections)[s] && !ValidPair(s, t)
    {
      if s !in connections { return false, []; }
      topicsToClean := Listed(connections[s]);
      ghost var c0 := State();
      assert topicsToClean[..0] == [];
      for i := 0 to |topicsToClean|
        invariant State() == Cleaned(c0, s, topicsToClean[..i]) && s in connections
        invariant FirstMalformed(s, topicsToClean) >= i
      {
        assert topicsToClean[..i + 1][..i] == topicsToClean[..i];
        threw := UnsubscribeFromTopic(s, topicsToClean[i]);
        if threw {
          assert topicsToClean[i] in c0.connections[s];
          return;
        }
      }
      assert topicsToClean[..|topicsToClean|] == topicsToClean;
      connections := connections - {s};
      threw := false;
    }
  }

  // The elements of a set in some order.
  method Listed(all: set<string>) returns (topics: seq<string>)
    ensures Enumerates(topics, all)
  {
    topics := [];
    var todo := all;
    while todo != {}
      invariant todo <= all && Enumerates(topics, all - todo)
    {
      var topic :| topic in todo;
      todo := todo - {topic};
      topics := topics + [topic];
    }
  }
}
