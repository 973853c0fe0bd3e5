// The Redis-backed WebSocket provider within one started session: local tables, four channel
// sets, and the commands and retry timers it has outstanding for each channel.
module RedisProvider {
  import opened SocketValidation
  import opened SocketTables

  const SUBSCRIBE_MAX_RETRIES := 3

  // Something outstanding for a channel. A command becomes a reply once the broker has handled it.
  datatype Op =
    | SubscribeCommand(attempt: nat)
    | SubscribeReply(attempt: nat, ok: bool)
    | RetryTimer(attempt: nat)
    | UnsubscribeCommand
    | UnsubscribeReply(ok: bool)

  datatype State = State(
    prefix: string,
    tables: Tables,
    redisSubscriptions: set<string>,
    pendingSubscriptions: set<string>,
    pendingUnsubscriptions: set<string>,
    pendingResubscribe: map<string, string>,
    outstanding: map<string, seq<Op>>
  )

  function Channel(prefix: string, topic: string): string { prefix + ":" + topic }

  function TopicOf(prefix: string, channel: string): string {
    if |prefix| + 1 <= |channel| then channel[|prefix| + 1..] else ""
  }

  lemma ChannelRoundTrip(prefix: string, topic: string)
    ensures TopicOf(prefix, Channel(prefix, topic)) == topic
  {
  }

  function Ops(s: State, ch: string): seq<Op> {
    if ch in s.outstanding then s.outstanding[ch] else []
  }

  function Issue(s: State, ch: string, op: Op): State {
    s.(outstanding := s.outstanding[ch := Ops(s, ch) + [op]])
  }

  function SubscribeWithRetry(s: State, ch: string, attempt: nat): State {
    Issue(s, ch, SubscribeCommand(attempt))
  }

  function UnsubscribeTracked(s: State, ch: string): State {
    Issue(s.(pendingUnsubscriptions := s.pendingUnsubscriptions + {ch}), ch, UnsubscribeCommand)
  }

  predicate Wanted(s: State, topic: string) { topic in s.tables.local && s.tables.local[topic] != {} }

  function Subscribe(s: State, socketId: string, topic: string): State {
    if ValidPair(socketId, topic) then Entered(s, socketId, topic) else s
  }

  function Entered(s: State, socketId: string, topic: string): State {
    var ch := Channel(s.prefix, topic);
    var s' := s.(tables := Add(s.tables, socketId, topic));
    if Wanted(s, topic) then s'
    else if ch in s.pendingUnsubscriptions then
      s'.(pendingResubscribe := s.pendingResubscribe[ch := topic])
    else if ch !in s.redisSubscriptions && ch !in s.pendingSubscriptions then
      SubscribeWithRetry(s'.(pendingSubscriptions := s.pendingSubscriptions + {ch}), ch, 1)
    else s'
  }

  function Unsubscribe(s: State, socketId: string, topic: string): State {
    if ValidPair(socketId, topic) && topic in s.tables.local then Left(s, socketId, topic) else s
  }

  function Left(s: State, socketId: string, topic: string): State
    requires topic in s.tables.local
  {
    var ch := Channel(s.prefix, topic);
    var s' := s.(tables := RemoveEarlyExit(s.tables, socketId, topic));
    if s.tables.local[topic] - {socketId} == {} && ch in s.redisSubscriptions then
      UnsubscribeTracked(s'.(redisSubscriptions := s.redisSubscriptions - {ch}), ch)
    else s'
  }

  // Sends an UNSUBSCRIBE for each of the channels in `gone`.
  function Queued(out: map<string, seq<Op>>, gone: set<string>): map<string, seq<Op>> {
    map ch | ch in out.Keys + gone ::
      if ch !in gone then out[ch] else (if ch in out then out[ch] else []) + [UnsubscribeCommand]
  }

  // Subscribed channels whose topic is among `topics` and loses its last local subscriber.
  function Orphaned(s: State, socketId: string, topics: set<string>): set<string> {
    set t | t in topics && t in s.tables.local && s.tables.local[t] - {socketId} == {}
            && Channel(s.prefix, t) in s.redisSubscriptions :: Channel(s.prefix, t)
  }

  // Takes the socket out of `topics` and unsubscribes the channels this leaves without subscribers.
  function Leave(s: State, socketId: string, topics: set<string>): State {
    var gone := Orphaned(s, socketId, topics);
    s.(tables := s.tables.(local := LocalWithout(s.tables.local, socketId, topics)),
       redisSubscriptions := s.redisSubscriptions - gone,
       pendingUnsubscriptions := s.pendingUnsubscriptions + gone,
       outstanding := Queued(s.outstanding, gone))
  }

  function DisconnectSocket(s: State, socketId: string): State {
    if ValidSocketId(socketId) then Departed(s, socketId) else s
  }

  function Departed(s: State, socketId: string): State {
    Leave(s, socketId, Get(s.tables.sockets, socketId)).(tables := Disconnect(s.tables, socketId))
  }

  function OnSubscribeReply(s: State, ch: string, attempt: nat, ok: bool): State {
    if ok then
      var s' := s.(pendingSubscriptions := s.pendingSubscriptions - {ch});
      if !Wanted(s, TopicOf(s.prefix, ch)) then UnsubscribeTracked(s', ch)
      else s'.(redisSubscriptions := s.redisSubscriptions + {ch})
    else if attempt < SUBSCRIBE_MAX_RETRIES then Issue(s, ch, RetryTimer(attempt))
    else s.(pendingSubscriptions := s.pendingSubscriptions - {ch})
  }

  function OnUnsubscribeReply(s: State, ch: string): State {
    var s' := s.(pendingUnsubscriptions := s.pendingUnsubscriptions - {ch});
    if ch in s.pendingResubscribe then
      var s'' := s'.(pendingResubscribe := s.pendingResubscribe - {ch});
      if Wanted(s, s.pendingResubscribe[ch]) then
        SubscribeWithRetry(s''.(pendingSubscriptions := s.pendingSubscriptions + {ch}), ch, 1)
      else s''
    else s'
  }

  function Remove1(s: State, ch: string, i: nat): State
    requires i < |Ops(s, ch)|
  {
    s.(outstanding := s.outstanding[ch := Ops(s, ch)[..i] + Ops(s, ch)[i + 1..]])
  }

  // The provider's reaction to a reply or an expired timer.
  function React(s: State, ch: string, i: nat): State
    requires i < |Ops(s, ch)|
  {
    var s' := Remove1(s, ch, i);
    match Ops(s, ch)[i]
    case SubscribeReply(attempt, ok) => OnSubscribeReply(s', ch, attempt, ok)
    case RetryTimer(attempt) => SubscribeWithRetry(s', ch, attempt + 1)
    case UnsubscribeReply(_) => OnUnsubscribeReply(s', ch)
    case _ => s
  }

  // `s'` differs from `s` only in what concerns channel `ch`.
  ghost predicate OnlyChannel(s: State, s': State, ch: string) {
    && s'.prefix == s.prefix && s'.tables == s.tables
    && (forall c :: c != ch ==> SameAt(s, s', c))
    && (ch in s'.pendingResubscribe ==>
         ch in s.pendingResubscribe && s'.pendingResubscribe[ch] == s.pendingResubscribe[ch])
    && s'.outstanding == s.outstanding[ch := Ops(s', ch)]
  }

  ghost predicate SameAt(s: State, s': State, c: string) {
    && (c in s'.redisSubscriptions <==> c in s.redisSubscriptions)
    && (c in s'.pendingSubscriptions <==> c in s.pendingSubscriptions)
    && (c in s'.pendingUnsubscriptions <==> c in s.pendingUnsubscriptions)
    && (c in s'.pendingResubscribe <==> c in s.pendingResubscribe)
    && (c in s.pendingResubscribe ==> s'.pendingResubscribe[c] == s.pendingResubscribe[c])
  }

  lemma SubscribeReplyFrame(s: State, ch: string, attempt: nat, ok: bool)
    requires ch in s.outstanding
    ensures OnlyChannel(s, OnSubscribeReply(s, ch, attempt, ok), ch)
  {
  }

  lemma UnsubscribeReplyFrame(s: State, ch: string)
    requires ch in s.outstanding
    ensures OnlyChannel(s, OnUnsubscribeReply(s, ch), ch)
  {
  }

  lemma FramesCompose(s: State, mid: State, s': State, ch: string)
    requires OnlyChannel(s, mid, ch) && OnlyChannel(mid, s', ch)
    ensures OnlyChannel(s, s', ch)
  {
    forall c | c != ch ensures SameAt(s, s', c) { assert SameAt(s, mid, c) && SameAt(mid, s', c); }
  }

  // A reply or timer changes nothing about other channels.
  lemma ReactFrame(s: State, ch: string, i: nat)
    requires i < |Ops(s, ch)|
    ensures OnlyChannel(s, React(s, ch, i), ch)
  {
    var mid := Remove1(s, ch, i);
    assert OnlyChannel(s, mid, ch);
    match Ops(s, ch)[i] {
      case SubscribeReply(attempt, ok) =>
        SubscribeReplyFrame(mid, ch, attempt, ok);
        FramesCompose(s, mid, OnSubscribeReply(mid, ch, attempt, ok), ch);
      case UnsubscribeReply(_) =>
        UnsubscribeReplyFrame(mid, ch);
        FramesCompose(s, mid, OnUnsubscribeReply(mid, ch), ch);
      case RetryTimer(attempt) => FramesCompose(s, mid, SubscribeWithRetry(mid, ch, attempt + 1), ch);
      case _ => assert s.outstanding[ch := Ops(s, ch)] == s.outstanding;
    }
  }

  function Initial(prefix: string): State {
    State(prefix, EMPTY, {}, {}, {}, map[], map[])
  }

  class RedisWsProvider {
    const keyPrefix: string
    var localSubscriptions: map<string, set<string>>
    var socketTopics: map<string, set<string>>
    var connectedSockets: set<string>
    var redisSubscriptions: set<string>
    var pendingSubscriptions: set<string>
    var pendingUnsubscriptions: set<string>
    var pendingResubscribe: map<string, string>
    // The subscriber connection and the retry timers, by channel.
    var outstanding: map<string, seq<Op>>

    function Value(): State
      reads this
    {
      State(keyPrefix, Tables(localSubscriptions, socketTopics, connectedSockets), redisSubscriptions,
            pendingSubscriptions, pendingUnsubscriptions, pendingResubscribe, outstanding)
    }

    constructor (keyPrefix: string)
      ensures Value() == Initial(keyPrefix)
    {
      this.keyPrefix := keyPrefix;
      localSubscriptions, socketTopics, connectedSockets := map[], map[], {};
      redisSubscriptions, pendingSubscriptions, pendingUnsubscriptions := {}, {}, {};
      pendingResubscribe, outstanding := map[], map[];
    }

    method Send(ch: string, op: Op)
      modifies this`outstanding
      ensures Value() == Issue(old(Value()), ch, op)
    {
      if ch !in outstanding { outstanding := outstanding[ch := []]; }
      outstanding := outstanding[ch := outstanding[ch] + [op]];
    }

    method UnsubscribeAndTrack(ch: string)
      modifies this`outstanding, this`pendingUnsubscriptions
      ensures Value() == UnsubscribeTracked(old(Value()), ch)
    {
      pendingUnsubscriptions := pendingUnsubscriptions + {ch};
      Send(ch, UnsubscribeCommand);
    }

    // Enters the pair in the local tables; tells whether the topic had no subscriber before.
    method Track(socketId: string, topic: string) returns (wasEmpty: bool)
      modifies this`localSubscriptions, this`socketTopics, this`connectedSockets
      ensures wasEmpty == (Get(old(localSubscriptions), topic) == {})
      ensures Tables(localSubscriptions, socketTopics, connectedSockets)
           == Add(old(Tables(localSubscriptions, socketTopics, connectedSockets)), socketId, topic)
    {
      if topic !in localSubscriptions { localSubscriptions := localSubscriptions[topic := {}]; }
      wasEmpty := localSubscriptions[topic] == {};
      localSubscriptions := localSubscriptions[topic := localSubscriptions[topic] + {socketId}];
      assert localSubscriptions == old(localSubscriptions)[topic := Get(old(localSubscriptions), topic) + {socketId}];
      if socketId !in socketTopics { socketTopics := socketTopics[socketId := {}]; }
      socketTopics := socketTopics[socketId := socketTopics[socketId] + {topic}];
      assert socketTopics == old(socketTopics)[socketId := Get(old(socketTopics), socketId) + {topic}];
      connectedSockets := connectedSockets + {socketId};
    }

    method SubscribeSocket(socketId: string, topic: string) returns (threw: bool)
      modifies this
      ensures threw == !ValidPair(socketId, topic)
      ensures Value() == Subscribe(old(Value()), socketId, topic)
      ensures Value().tables == ApplyRedis(old(Value().tables), SubscribeCall(socketId, topic))
    {
      if !ValidSocketId(socketId) || !ValidTopic(topic) { return true; }
      threw := false;
      var wasEmpty := Track(socketId, topic);
      if wasEmpty {
        var ch := Channel(keyPrefix, topic);
        if ch in pendingUnsubscriptions {
          pendingResubscribe := pendingResubscribe[ch := topic];
          return;
        }
        if ch !in redisSubscriptions && ch !in pendingSubscriptions {
          pendingSubscriptions := pendingSubscriptions + {ch};
          Send(ch, SubscribeCommand(1));
        }
      }
    }

    // Takes the socket out of one topic, unsubscribing its channel when it was the last one.
    method DropSubscriber(socketId: string, topic: string)
      modifies this`localSubscriptions, this`redisSubscriptions, this`pendingUnsubscriptions, this`outstanding
      ensures Value() == Leave(old(Value()), socketId, {topic})
    {
      if topic in localSubscriptions {
        var subscribers := localSubscriptions[topic] - {socketId};
        localSubscriptions := localSubscriptions[topic := subscribers];
        if subscribers == {} {
          localSubscriptions := localSubscriptions - {topic};
          var ch := Channel(keyPrefix, topic);
          if ch in redisSubscriptions {
            redisSubscriptions := redisSubscriptions - {ch};
            UnsubscribeAndTrack(ch);
          }
        }
      }
      LeaveOne(old(Value()), socketId, topic);
    }

    method UnsubscribeSocket(socketId: string, topic: string) returns (threw: bool)
      modifies this
      ensures threw == !ValidPair(socketId, topic)
      ensures Value() == Unsubscribe(old(Value()), socketId, topic)
      ensures Value().tables == ApplyRedis(old(Value().tables), UnsubscribeCall(socketId, topic))
    {
      if !ValidSocketId(socketId) || !ValidTopic(topic) { return true; }
      threw := false;
      if topic !in localSubscriptions { return; }
      DropSubscriber(socketId, topic);
      LeaveOne(old(Value()), socketId, topic);
      if socketId in socketTopics {
        var topics := socketTopics[socketId] - {topic};
        socketTopics := socketTopics[socketId := topics];
        if topics == {} {
          socketTopics := socketTopics - {socketId};
          connectedSockets := connectedSockets - {socketId};
        }
      }
    }

    method Close(socketId: string) returns (threw: bool)
      modifies this
      ensures threw == !ValidSocketId(socketId)
      ensures Value() == DisconnectSocket(old(Value()), socketId)
      ensures Value().tables == ApplyRedis(old(Value().tables), DisconnectCall(socketId))
    {
      if !ValidSocketId(socketId) { return true; }
      ghost var s0 := Value();
      ghost var topics := Get(socketTopics, socketId);
      LeaveNone(s0, socketId);
      if socketId in socketTopics {
        var todo := socketTopics[socketId];
        while todo != {}
          invariant todo <= topics
          invariant Value() == Leave(s0, socketId, topics - todo)
        {
          var topic :| topic in todo;
          ghost var done := topics - todo;
          LeaveMore(s0, socketId, done, topic);
          DropSubscriber(socketId, topic);
          todo := todo - {topic};
          assert topics - todo == done + {topic};
        }
        assert topics - todo == topics;
        socketTopics := socketTopics - {socketId};
      }
      connectedSockets := connectedSockets - {socketId};
      threw := false;
    }

    // A reply arrives for, or a retry timer expires on, the i-th thing outstanding for a channel.
    method Settle(ch: string, i: nat)
      requires i < |Ops(Value(), ch)|
      modifies this
      ensures Value() == React(old(Value()), ch, i)
    {
      var op := outstanding[ch][i];
      if op.SubscribeCommand? || op.UnsubscribeCommand? { return; }
      outstanding := outstanding[ch := outstanding[ch][..i] + outstanding[ch][i + 1..]];
      match op {
        case SubscribeReply(attempt, ok) =>
          if ok {
            pendingSubscriptions := pendingSubscriptions - {ch};
            var topic := TopicOf(keyPrefix, ch);
            if topic !in localSubscriptions || localSubscriptions[topic] == {} {
              UnsubscribeAndTrack(ch);
              return;
            }
            redisSubscriptions := redisSubscriptions + {ch};
          } else if attempt < SUBSCRIBE_MAX_RETRIES {
            Send(ch, RetryTimer(attempt));
          } else {
            pendingSubscriptions := pendingSubscriptions - {ch};
          }
        case RetryTimer(attempt) => Send(ch, SubscribeCommand(attempt + 1));
        case UnsubscribeReply(_) =>
          pendingUnsubscriptions := pendingUnsubscriptions - {ch};
          if ch in pendingResubscribe {
            var topic := pendingResubscribe[ch];
            pendingResubscribe := pendingResubscribe - {ch};
            if topic in localSubscriptions && localSubscriptions[topic] != {} {
              pendingSubscriptions := pendingSubscriptions + {ch};
              Send(ch, SubscribeCommand(1));
            }
          }
      }
    }
  }

  lemma LeaveNone(s: State, socketId: string)
    ensures Leave(s, socketId, {}) == s
  {
    assert LocalWithout(s.tables.local, socketId, {}) == s.tables.local;
    assert Orphaned(s, socketId, {}) == {};
    assert Queued(s.outstanding, {}) == s.outstanding;
  }

  lemma LeaveOne(s: State, socketId: string, topic: string)
    ensures var ch := Channel(s.prefix, topic);
      var s' := s.(tables := s.tables.(local := Shrink(s.tables.local, topic, socketId)));
      Leave(s, socketId, {topic}) ==
        if topic in s.tables.local && s.tables.local[topic] - {socketId} == {} && ch in s.redisSubscriptions then
          UnsubscribeTracked(s'.(redisSubscriptions := s.redisSubscriptions - {ch}), ch)
        else s'
  {
    var ch := Channel(s.prefix, topic);
    assert LocalWithout(s.tables.local, socketId, {topic}) == Shrink(s.tables.local, topic, socketId);
    var gone := Orphaned(s, socketId, {topic});
    if topic in s.tables.local && s.tables.local[topic] - {socketId} == {} && ch in s.redisSubscriptions {
      assert gone == {ch};
    } else {
      assert gone == {};
    }
  }

  lemma LocalWithoutMore(m: map<string, set<string>>, socketId: string, done: set<string>, topic: string)
    requires topic !in done
    ensures LocalWithout(LocalWithout(m, socketId, done), socketId, {topic}) ==
      LocalWithout(m, socketId, done + {topic})
  {
  }

  lemma OrphanedMore(s: State, socketId: string, done: set<string>, topic: string)
    requires topic !in done
    ensures var mid := Leave(s, socketId, done);
      && Orphaned(s, socketId, done + {topic}) == Orphaned(s, socketId, done) + Orphaned(mid, socketId, {topic})
      && Orphaned(s, socketId, done) !! Orphaned(mid, socketId, {topic})
  {
    var mid := Leave(s, socketId, done);
    forall t: string { ChannelRoundTrip(s.prefix, t); }
    assert mid.prefix == s.prefix;
    var ch := Channel(s.prefix, topic);
    assert ch !in Orphaned(s, socketId, done);
    assert ch in mid.redisSubscriptions <==> ch in s.redisSubscriptions;
    assert topic in mid.tables.local <==> topic in s.tables.local;
    assert Orphaned(mid, socketId, {topic}) == Orphaned(s, socketId, {topic});
    assert Orphaned(s, socketId, done + {topic}) == Orphaned(s, socketId, done) + Orphaned(s, socketId, {topic});
  }

  lemma QueuedMore(out: map<string, seq<Op>>, a: set<string>, b: set<string>)
    requires a !! b
    ensures Queued(Queued(out, a), b) == Queued(out, a + b)
  {
    forall ch | ch in out.Keys + a + b ensures Queued(Queued(out, a), b)[ch] == Queued(out, a + b)[ch] {
      if ch in b { assert ch !in a; }
    }
  }

  // Leaving topics one at a time, in any order, amounts to leaving them all.
  lemma LeaveMore(s: State, socketId: string, done: set<string>, topic: string)
    requires topic !in done
    ensures Leave(Leave(s, socketId, done), socketId, {topic}) == Leave(s, socketId, done + {topic})
  {
    var mid := Leave(s, socketId, done);
    LocalWithoutMore(s.tables.local, socketId, done, topic);
    OrphanedMore(s, socketId, done, topic);
    var a, b := Orphaned(s, socketId, done), Orphaned(mid, socketId, {topic});
    QueuedMore(s.outstanding, a, b);
    assert s.redisSubscriptions - a - b == s.redisSubscriptions - (a + b);
    assert s.pendingUnsubscriptions + a + b == s.pendingUnsubscriptions + (a + b);
  }
}
