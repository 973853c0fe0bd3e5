// The local subscription tables that every WebSocket provider keeps: topic -> sockets,
// the reverse index socket -> topics, and the set of connected sockets.
module SocketTables {
  import opened SocketValidation

  datatype Tables = Tables(
    local: map<string, set<string>>,
    sockets: map<string, set<string>>,
    connected: set<string>
  )

  // A subscription relation: pairs of socket and topic.
  type Relation = set<(string, string)>

  const EMPTY := Tables(map[], map[], {})

  function SocketsOf(r: Relation, topic: string): set<string> {
    set p | p in r && p.1 == topic :: p.0
  }

  function TopicsOf(r: Relation, socketId: string): set<string> {
    set p | p in r && p.0 == socketId :: p.1
  }

  // The one canonical set of tables that indexes a relation, with no empty sets.
  function TablesOf(r: Relation): Tables {
    Tables(
      map topic | topic in (set p | p in r :: p.1) :: SocketsOf(r, topic),
      map socketId | socketId in (set p | p in r :: p.0) :: TopicsOf(r, socketId),
      set p | p in r :: p.0
    )
  }

  function Get(m: map<string, set<string>>, key: string): set<string> {
    if key in m then m[key] else {}
  }

  // Removes `x` from the set under `key`, and the key with it when the set becomes empty.
  function Shrink(m: map<string, set<string>>, key: string, x: string): map<string, set<string>> {
    if key !in m then m
    else if m[key] - {x} == {} then m - {key}
    else m[key := m[key] - {x}]
  }

  function Add(t: Tables, socketId: string, topic: string): Tables {
    Tables(
      t.local[topic := Get(t.local, topic) + {socketId}],
      t.sockets[socketId := Get(t.sockets, socketId) + {topic}],
      t.connected + {socketId}
    )
  }

  // The reverse-index half of an unsubscribe.
  function DropTopic(t: Tables, socketId: string, topic: string): Tables {
    if socketId !in t.sockets then t
    else if t.sockets[socketId] - {topic} == {} then
      t.(sockets := t.sockets - {socketId}, connected := t.connected - {socketId})
    else
      t.(sockets := t.sockets[socketId := t.sockets[socketId] - {topic}])
  }

  // The in-process provider always updates both indexes.
  function Remove(t: Tables, socketId: string, topic: string): Tables {
    DropTopic(t.(local := Shrink(t.local, topic, socketId)), socketId, topic)
  }

  // The Redis provider leaves early when the topic has no subscribers.
  function RemoveEarlyExit(t: Tables, socketId: string, topic: string): Tables {
    if topic !in t.local then t else Remove(t, socketId, topic)
  }

  // Takes the socket out of each topic in `topics`.
  function LocalWithout(local: map<string, set<string>>, socketId: string, topics: set<string>)
    : map<string, set<string>>
  {
    map topic | topic in local && !(topic in topics && local[topic] - {socketId} == {}) ::
      if topic in topics then local[topic] - {socketId} else local[topic]
  }

  function Disconnect(t: Tables, socketId: string): Tables {
    Tables(
      LocalWithout(t.local, socketId, Get(t.sockets, socketId)),
      t.sockets - {socketId},
      t.connected - {socketId}
    )
  }

  // ---------------------------------------------------------------------
  // The tables are exactly the canonical index of one relation, and each
  // operation is the obvious operation on that relation.
  // ---------------------------------------------------------------------

  lemma LocalOf(r: Relation, topic: string)
    ensures topic in TablesOf(r).local <==> SocketsOf(r, topic) != {}
    ensures Get(TablesOf(r).local, topic) == SocketsOf(r, topic)
    ensures forall s :: s in SocketsOf(r, topic) <==> (s, topic) in r
  {
    if topic in TablesOf(r).local {
      var p :| p in r && p.1 == topic;
      assert p.0 in SocketsOf(r, topic);
    }
    forall s | (s, topic) in r ensures s in SocketsOf(r, topic) {
      var p := (s, topic);
      assert p in r && p.1 == topic;
    }
  }

  lemma SocketsIndexOf(r: Relation, socketId: string)
    ensures socketId in TablesOf(r).sockets <==> TopicsOf(r, socketId) != {}
    ensures socketId in TablesOf(r).connected <==> TopicsOf(r, socketId) != {}
    ensures Get(TablesOf(r).sockets, socketId) == TopicsOf(r, socketId)
    ensures forall t :: t in TopicsOf(r, socketId) <==> (socketId, t) in r
  {
    if socketId in TablesOf(r).connected {
      var p :| p in r && p.0 == socketId;
      assert p.1 in TopicsOf(r, socketId);
    }
    forall t | (socketId, t) in r ensures t in TopicsOf(r, socketId) {
      var p := (socketId, t);
      assert p in r && p.0 == socketId;
    }
  }

  // Tables that answer every lookup as `r` does, without empty sets, are TablesOf(r).
  lemma TablesExtensional(t: Tables, r: Relation)
    requires forall k :: k in t.local ==> t.local[k] != {}
    requires forall k :: k in t.sockets ==> t.sockets[k] != {}
    requires forall k :: Get(t.local, k) == SocketsOf(r, k)
    requires forall k :: Get(t.sockets, k) == TopicsOf(r, k)
    requires t.connected == t.sockets.Keys
    ensures t == TablesOf(r)
  {
    forall k ensures k in t.local <==> k in TablesOf(r).local {
      LocalOf(r, k);
      assert Get(t.local, k) == SocketsOf(r, k);
    }
    forall k ensures k in t.sockets <==> k in TablesOf(r).sockets {
      SocketsIndexOf(r, k);
      assert Get(t.sockets, k) == TopicsOf(r, k);
    }
    forall k | k in t.local ensures t.local[k] == TablesOf(r).local[k] {
      LocalOf(r, k);
      assert Get(t.local, k) == SocketsOf(r, k);
    }
    forall k | k in t.sockets ensures t.sockets[k] == TablesOf(r).sockets[k] {
      SocketsIndexOf(r, k);
      assert Get(t.sockets, k) == TopicsOf(r, k);
    }
    assert t.local == TablesOf(r).local;
    assert t.sockets == TablesOf(r).sockets;
    forall k ensures k in t.connected <==> k in TablesOf(r).connected { SocketsIndexOf(r, k); }
  }

  lemma AddIndexes(r: Relation, socketId: string, topic: string)
    ensures Add(TablesOf(r), socketId, topic) == TablesOf(r + {(socketId, topic)})
  {
    var t, r' := Add(TablesOf(r), socketId, topic), r + {(socketId, topic)};
    forall k ensures Get(t.local, k) == SocketsOf(r', k) { LocalOf(r, k); LocalOf(r', k); }
    forall k ensures Get(t.sockets, k) == TopicsOf(r', k) { SocketsIndexOf(r, k); SocketsIndexOf(r', k); }
    forall k | k in t.local ensures t.local[k] != {} { LocalOf(r, k); }
    forall k | k in t.sockets ensures t.sockets[k] != {} { SocketsIndexOf(r, k); }
    TablesExtensional(t, r');
  }

  lemma ShrinkGet(m: map<string, set<string>>, key: string, x: string)
    requires forall k :: k in m ==> m[k] != {}
    ensures forall k :: k in Shrink(m, key, x) ==> Shrink(m, key, x)[k] != {}
    ensures forall k :: Get(Shrink(m, key, x), k) == if k == key then Get(m, k) - {x} else Get(m, k)
  {
  }

  lemma RemoveIsShrink(t: Tables, socketId: string, topic: string)
    requires t.connected == t.sockets.Keys
    ensures var r := Remove(t, socketId, topic);
      && r.local == Shrink(t.local, topic, socketId)
      && r.sockets == Shrink(t.sockets, socketId, topic)
      && r.connected == r.sockets.Keys
  {
  }

  lemma LookupsAfterRemoval(r: Relation, socketId: string, topic: string, k: string)
    ensures var r' := r - {(socketId, topic)};
      && SocketsOf(r', k) == (if k == topic then SocketsOf(r, k) - {socketId} else SocketsOf(r, k))
      && TopicsOf(r', k) == (if k == socketId then TopicsOf(r, k) - {topic} else TopicsOf(r, k))
  {
    LocalOf(r, k);
    LocalOf(r - {(socketId, topic)}, k);
    SocketsIndexOf(r, k);
    SocketsIndexOf(r - {(socketId, topic)}, k);
  }

  lemma RemoveIndexes(r: Relation, socketId: string, topic: string)
    ensures Remove(TablesOf(r), socketId, topic) == TablesOf(r - {(socketId, topic)})
  {
    var t0, r' := TablesOf(r), r - {(socketId, topic)};
    var t := Remove(t0, socketId, topic);
    forall k | k in t0.local ensures t0.local[k] != {} { LocalOf(r, k); }
    forall k | k in t0.sockets ensures t0.sockets[k] != {} { SocketsIndexOf(r, k); }
    RemoveIsShrink(t0, socketId, topic);
    ShrinkGet(t0.local, topic, socketId);
    ShrinkGet(t0.sockets, socketId, topic);
    forall k ensures Get(t.local, k) == SocketsOf(r', k) { LocalOf(r, k); LookupsAfterRemoval(r, socketId, topic, k); }
    forall k ensures Get(t.sockets, k) == TopicsOf(r', k) {
      SocketsIndexOf(r, k);
      LookupsAfterRemoval(r, socketId, topic, k);
    }
    TablesExtensional(t, r');
  }

  lemma RemoveEarlyExitIndexes(r: Relation, socketId: string, topic: string)
    ensures RemoveEarlyExit(TablesOf(r), socketId, topic) == TablesOf(r - {(socketId, topic)})
  {
    RemoveIndexes(r, socketId, topic);
    if topic !in TablesOf(r).local {
      LocalOf(r, topic);
      assert r - {(socketId, topic)} == r;
    }
  }

  lemma DisconnectIndexes(r: Relation, socketId: string)
    ensures Disconnect(TablesOf(r), socketId) == TablesOf(set p | p in r && p.0 != socketId)
  {
    var t, r' := Disconnect(TablesOf(r), socketId), set p | p in r && p.0 != socketId;
    SocketsIndexOf(r, socketId);
    forall k ensures Get(t.local, k) == SocketsOf(r', k) { LocalOf(r, k); LocalOf(r', k); }
    forall k ensures Get(t.sockets, k) == TopicsOf(r', k) { SocketsIndexOf(r, k); SocketsIndexOf(r', k); }
    forall k | k in t.local ensures t.local[k] != {} { LocalOf(r, k); }
    forall k | k in t.sockets ensures t.sockets[k] != {} { SocketsIndexOf(r, k); }
    TablesExtensional(t, r');
  }

  // ---------------------------------------------------------------------
  // Call sequences, for either provider
  // ---------------------------------------------------------------------

  datatype Call =
    | SubscribeCall(socketId: string, topic: string)
    | UnsubscribeCall(socketId: string, topic: string)
    | DisconnectCall(socketId: string)

  // A call with a malformed id throws before it touches the tables.
  function ApplyInProcess(t: Tables, call: Call): Tables {
    match call
    case SubscribeCall(s, topic) => if ValidPair(s, topic) then Add(t, s, topic) else t
    case UnsubscribeCall(s, topic) => if ValidPair(s, topic) then Remove(t, s, topic) else t
    case DisconnectCall(s) => if ValidSocketId(s) then Disconnect(t, s) else t
  }

  function ApplyRedis(t: Tables, call: Call): Tables {
    match call
    case SubscribeCall(s, topic) => if ValidPair(s, topic) then Add(t, s, topic) else t
    case UnsubscribeCall(s, topic) => if ValidPair(s, topic) then RemoveEarlyExit(t, s, topic) else t
    case DisconnectCall(s) => if ValidSocketId(s) then Disconnect(t, s) else t
  }

  function RunInProcess(calls: seq<Call>): Tables {
    if calls == [] then EMPTY else ApplyInProcess(RunInProcess(calls[..|calls| - 1]), calls[|calls| - 1])
  }

  function RunRedis(calls: seq<Call>): Tables {
    if calls == [] then EMPTY else ApplyRedis(RunRedis(calls[..|calls| - 1]), calls[|calls| - 1])
  }

  // What a call sequence means: the set of live subscriptions.
  function Meaning(calls: seq<Call>): Relation {
    if calls == [] then {}
    else
      var before := Meaning(calls[..|calls| - 1]);
      match calls[|calls| - 1]
      case SubscribeCall(s, topic) => if ValidPair(s, topic) then before + {(s, topic)} else before
      case UnsubscribeCall(s, topic) => if ValidPair(s, topic) then before - {(s, topic)} else before
      case DisconnectCall(s) => if ValidSocketId(s) then (set p | p in before && p.0 != s) else before
  }

  lemma ApplyIndexes(r: Relation, calls: seq<Call>)
    requires calls != [] && r == Meaning(calls[..|calls| - 1])
    ensures ApplyInProcess(TablesOf(r), calls[|calls| - 1]) == TablesOf(Meaning(calls))
    ensures ApplyRedis(TablesOf(r), calls[|calls| - 1]) == TablesOf(Meaning(calls))
  {
    match calls[|calls| - 1] {
      case SubscribeCall(s, topic) => AddIndexes(r, s, topic);
      case UnsubscribeCall(s, topic) => RemoveIndexes(r, s, topic); RemoveEarlyExitIndexes(r, s, topic);
      case DisconnectCall(s) => DisconnectIndexes(r, s);
    }
  }

  // On every call sequence both providers hold exactly the canonical index of the live subscriptions.
  lemma {:induction false} ProvidersIndexTheSameRelation(calls: seq<Call>)
    ensures RunInProcess(calls) == TablesOf(Meaning(calls))
    ensures RunRedis(calls) == RunInProcess(calls)
  {
    if calls == [] {
      assert TablesOf({}) == EMPTY;
    } else {
      ProvidersIndexTheSameRelation(calls[..|calls| - 1]);
      ApplyIndexes(Meaning(calls[..|calls| - 1]), calls);
    }
  }
}
