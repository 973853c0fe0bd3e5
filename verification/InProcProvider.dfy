// The in-process WebSocket provider: three subscription tables changed in place.
module InProcess {
  import opened SocketValidation
  import opened SocketTables

  class InProcWsProvider {
    var localSubscriptions: map<string, set<string>>
    var socketTopics: map<string, set<string>>
    var connectedSockets: set<string>

    function State(): Tables
      reads this
    {
      Tables(localSubscriptions, socketTopics, connectedSockets)
    }

    constructor ()
      ensures State() == EMPTY
    {
      localSubscriptions, socketTopics, connectedSockets := map[], map[], {};
    }

    // Returns whether the call threw, as it does for a malformed id.
    method Subscribe(socketId: string, topic: string) returns (threw: bool)
      modifies this
      ensures threw == !ValidPair(socketId, topic)
      ensures State() == ApplyInProcess(old(State()), SubscribeCall(socketId, topic))
    {
      if !ValidSocketId(socketId) || !ValidTopic(topic) { return true; }
      if topic !in localSubscriptions {
        localSubscriptions := localSubscriptions[topic := {}];
      }
      localSubscriptions := localSubscriptions[topic := localSubscriptions[topic] + {socketId}];
      assert localSubscriptions == old(localSubscriptions)[topic := Get(old(localSubscriptions), topic) + {socketId}];
      if socketId !in socketTopics {
        socketTopics := socketTopics[socketId := {}];
      }
      socketTopics := socketTopics[socketId := socketTopics[socketId] + {topic}];
      assert socketTopics == old(socketTopics)[socketId := Get(old(socketTopics), socketId) + {topic}];
      connectedSockets := connectedSockets + {socketId};
      return false;
    }

    method Unsubscribe(socketId: string, topic: string) returns (threw: bool)
      modifies this
      ensures threw == !ValidPair(socketId, topic)
      ensures State() == ApplyInProcess(old(State()), UnsubscribeCall(socketId, topic))
    {
      if !ValidSocketId(socketId) || !ValidTopic(topic) { return true; }
      if topic in localSubscriptions {
        var subscribers := localSubscriptions[topic] - {socketId};
        localSubscriptions := localSubscriptions[topic := subscribers];
        if subscribers == {} {
          localSubscriptions := localSubscriptions - {topic};
        }
      }
      assert localSubscriptions == Shrink(old(localSubscriptions), topic, socketId);
      if socketId in socketTopics {
        var topics := socketTopics[socketId] - {topic};
        socketTopics := socketTopics[socketId := topics];
        if topics == {} {
          socketTopics := socketTopics - {socketId};
          connectedSockets := connectedSockets - {socketId};
        }
      }
      return false;
    }

    method Disconnect(socketId: string) returns (threw: bool)
      modifies this
      ensures threw == !ValidSocketId(socketId)
      ensures State() == ApplyInProcess(old(State()), DisconnectCall(socketId))
    {
      if !ValidSocketId(socketId) { return true; }
      if socketId in socketTopics {
        var todo := socketTopics[socketId];
        ghost var topics := todo;
        while todo != {}
          invariant todo <= topics
          invariant socketTopics == old(socketTopics) && connectedSockets == old(connectedSockets)
          invariant localSubscriptions == LocalWithout(old(localSubscriptions), socketId, topics - todo)
        {
          var topic :| topic in todo;
          todo := todo - {topic};
          if topic in localSubscriptions {
            var subscribers := localSubscriptions[topic] - {socketId};
            localSubscriptions := localSubscriptions[topic := subscribers];
            if subscribers == {} {
              localSubscriptions := localSubscriptions - {topic};
            }
          }
        }
        assert topics - todo == topics;
        socketTopics := socketTopics - {socketId};
      } else {
        assert localSubscriptions == LocalWithout(localSubscriptions, socketId, {});
      }
      connectedSockets := connectedSockets - {socketId};
      return false;
    }
  }
}
