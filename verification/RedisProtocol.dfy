// The provider together with its Redis broker: client calls interleaved in any way with
// commands reaching the broker, replies, failures and retry timers. Commands may be handled
// in any order, which includes the FIFO order of one connection.
module RedisProtocol {
  import opened SocketValidation
  import opened SocketTables
  import opened RedisProvider

  // `broker` is the set of channels the broker delivers to this provider. `gaveUp` and `drift` are
  // history: channels whose last SUBSCRIBE gave up, and channels where a failed command left the
  // broker's set other than the provider believes.
  datatype World = World(s: State, broker: set<string>, gaveUp: set<string>, drift: set<string>)

  // What becomes of a command: done, failed without effect, or done but reported as failed.
  datatype Outcome = Applied | Failed | Lost

  datatype Event =
    | Join(socketId: string, topic: string)
    | Part(socketId: string, topic: string)
    | Close(socketId: string)
    | Settle(ch: string, i: nat, outcome: Outcome)

  predicate Enabled(w: World, e: Event) {
    e.Settle? ==> e.i < |Ops(w.s, e.ch)|
  }

  function Answer(s: State, ch: string, i: nat, reply: Op): State
    requires i < |Ops(s, ch)|
  {
    s.(outstanding := s.outstanding[ch := Ops(s, ch)[i := reply]])
  }

  function SettleStep(w: World, ch: string, i: nat, outcome: Outcome): World
    requires i < |Ops(w.s, ch)|
  {
    match Ops(w.s, ch)[i]
    case SubscribeCommand(attempt) =>
      World(Answer(w.s, ch, i, SubscribeReply(attempt, outcome.Applied?)),
            if outcome.Failed? then w.broker else w.broker + {ch},
            w.gaveUp,
            if outcome.Applied? then w.drift - {ch} else if outcome.Lost? then w.drift + {ch} else w.drift)
    case UnsubscribeCommand =>
      World(Answer(w.s, ch, i, UnsubscribeReply(outcome.Applied?)),
            if outcome.Failed? then w.broker else w.broker - {ch},
            w.gaveUp,
            if outcome.Failed? then w.drift + {ch} else w.drift - {ch})
    case SubscribeReply(attempt, ok) =>
      w.(s := React(w.s, ch, i),
         gaveUp := if !ok && attempt >= SUBSCRIBE_MAX_RETRIES then w.gaveUp + {ch} else w.gaveUp)
    case _ => Restarting(w, React(w.s, ch, i), ch)
  }

  // A channel for which a new subscribe starts has not given up.
  function Restarting(w: World, s': State, ch: string): World {
    w.(s := s',
       gaveUp := if ch in s'.pendingSubscriptions && ch !in w.s.pendingSubscriptions then w.gaveUp - {ch} else w.gaveUp)
  }

  function Step(w: World, e: Event): World {
    match e
    case Join(s, topic) => Restarting(w, Subscribe(w.s, s, topic), Channel(w.s.prefix, topic))
    case Part(s, topic) => w.(s := Unsubscribe(w.s, s, topic))
    case Close(s) => w.(s := DisconnectSocket(w.s, s))
    case Settle(ch, i, outcome) => if Enabled(w, e) then SettleStep(w, ch, i, outcome) else w
  }

  function Run(w: World, events: seq<Event>): World
    decreases |events|
  {
    if events == [] then w else Run(Step(w, events[0]), events[1..])
  }

  function Start(prefix: string): World { World(Initial(prefix), {}, {}, {}) }

  // ---------------------------------------------------------------------
  // One channel at a time
  // ---------------------------------------------------------------------

  datatype View = View(
    wanted: bool, sub: bool, psub: bool, punsub: bool, resub: bool,
    ops: seq<Op>, broker: bool, gaveUp: bool, drift: bool)

  datatype ChannelEvent = Stay | Want | Unwant | SettleOp(i: nat, outcome: Outcome)

  function ViewOf(w: World, topic: string): View {
    var ch := Channel(w.s.prefix, topic);
    View(Wanted(w.s, topic), ch in w.s.redisSubscriptions, ch in w.s.pendingSubscriptions,
         ch in w.s.pendingUnsubscriptions, ch in w.s.pendingResubscribe,
         Ops(w.s, ch), ch in w.broker, ch in w.gaveUp, ch in w.drift)
  }

  // The state machine of a single channel.
  function ChannelStep(v: View, e: ChannelEvent): View {
    match e
    case Stay => v
    case Want =>
      if v.wanted then v
      else if v.punsub then v.(wanted := true, resub := true)
      else if !v.sub && !v.psub
        then v.(wanted := true, psub := true, ops := v.ops + [SubscribeCommand(1)], gaveUp := false)
      else v.(wanted := true)
    case Unwant =>
      if v.sub then v.(wanted := false, sub := false, punsub := true, ops := v.ops + [UnsubscribeCommand])
      else v.(wanted := false)
    case SettleOp(i, outcome) =>
      if |v.ops| <= i then v
      else
        var rest := v.ops[..i] + v.ops[i + 1..];
        match v.ops[i]
        case SubscribeCommand(a) =>
          v.(ops := v.ops[i := SubscribeReply(a, outcome.Applied?)], broker := v.broker || !outcome.Failed?,
             drift := if outcome.Applied? then false else v.drift || outcome.Lost?)
        case UnsubscribeCommand =>
          v.(ops := v.ops[i := UnsubscribeReply(outcome.Applied?)], broker := v.broker && outcome.Failed?,
             drift := outcome.Failed?)
        case SubscribeReply(a, ok) =>
          if ok && v.wanted then v.(psub := false, sub := true, ops := rest)
          else if ok then v.(psub := false, punsub := true, ops := rest + [UnsubscribeCommand])
          else if a < SUBSCRIBE_MAX_RETRIES then v.(ops := rest + [RetryTimer(a)])
          else v.(psub := false, gaveUp := true, ops := rest)
        case RetryTimer(a) => v.(ops := rest + [SubscribeCommand(a + 1)])
        case UnsubscribeReply(_) =>
          if v.resub && v.wanted then
            v.(punsub := false, resub := false, psub := true, ops := rest + [SubscribeCommand(1)], gaveUp := false)
          else v.(punsub := false, resub := false, ops := rest)
  }

  // What a global event means for the channel of `topic`.
  function LocalEvent(w: World, e: Event, topic: string): ChannelEvent {
    match e
    case Join(s, t) => if t == topic && ValidPair(s, t) then Want else Stay
    case Part(s, t) => if t == topic && ValidPair(s, t) && LastOne(w.s, s, t) then Unwant else Stay
    case Close(s) =>
      if ValidSocketId(s) && topic in Get(w.s.tables.sockets, s) && LastOne(w.s, s, topic) then Unwant else Stay
    case Settle(ch, i, outcome) => if ch == Channel(w.s.prefix, topic) then SettleOp(i, outcome) else Stay
  }

  predicate LastOne(s: State, socketId: string, topic: string) {
    topic in s.tables.local && s.tables.local[topic] - {socketId} == {}
  }

  predicate Subscribing(op: Op, broker: bool) {
    match op
    case SubscribeCommand(a) => 1 <= a <= SUBSCRIBE_MAX_RETRIES
    case SubscribeReply(a, ok) => 1 <= a <= SUBSCRIBE_MAX_RETRIES && (ok ==> broker)
    case RetryTimer(a) => 1 <= a < SUBSCRIBE_MAX_RETRIES
    case _ => false
  }

  // Where the machine of a channel can be. At most one command, reply or timer is outstanding.
  predicate Good(v: View) {
    && |v.ops| <= 1
    && (v.sub ==> v.wanted && v.broker && !v.psub && !v.punsub && v.ops == [])
    && (v.psub ==> !v.punsub && |v.ops| == 1 && Subscribing(v.ops[0], v.broker))
    && (v.punsub ==> |v.ops| == 1 && (v.ops[0].UnsubscribeCommand? || v.ops[0].UnsubscribeReply?))
    && (!v.psub && !v.punsub ==> v.ops == [])
    && (v.resub ==> v.punsub)
    && (v.gaveUp ==> !v.sub && !v.psub && !v.punsub)
    && (v.wanted ==> v.sub || v.psub || v.resub || v.gaveUp)
    && (v.drift ==> v.broker && !v.sub)
    && (v.psub && v.ops[0].SubscribeReply? && v.ops[0].ok ==> !v.drift)
    && (v.punsub && v.ops[0].UnsubscribeCommand? ==> v.broker)
    && (v.broker && !v.sub ==>
         v.drift || (v.psub && v.ops[0].SubscribeReply? && v.ops[0].ok) || (v.punsub && v.ops[0].UnsubscribeCommand?))
  }

  lemma ChannelStepKeepsGood(v: View, e: ChannelEvent)
    requires Good(v)
    ensures Good(ChannelStep(v, e))
  {
  }

  predicate IsChannel(prefix: string, ch: string) {
    ch == Channel(prefix, TopicOf(prefix, ch))
  }

  predicate Named(w: World, ch: string) {
    ch in w.s.redisSubscriptions || ch in w.s.pendingSubscriptions || ch in w.s.pendingUnsubscriptions
    || ch in w.s.outstanding || ch in w.broker || ch in w.drift
  }

  // Everything the provider and the broker name is a channel of this provider, and a mark for
  // resubscribing carries the topic of its channel.
  ghost predicate Shaped(w: World) {
    && (forall t :: t in w.s.tables.local ==> w.s.tables.local[t] != {})
    && (forall ch | Named(w, ch) :: IsChannel(w.s.prefix, ch))
    && (forall ch :: ch in w.s.pendingResubscribe ==>
          IsChannel(w.s.prefix, ch) && w.s.pendingResubscribe[ch] == TopicOf(w.s.prefix, ch))
  }

  ghost predicate Inv(w: World) {
    Shaped(w) && forall t :: Good(ViewOf(w, t))
  }

  lemma ChannelsDiffer(prefix: string, t: string, t': string)
    ensures Channel(prefix, t) == Channel(prefix, t') <==> t == t'
    ensures IsChannel(prefix, Channel(prefix, t))
  {
    ChannelRoundTrip(prefix, t);
    ChannelRoundTrip(prefix, t');
  }

  lemma EnteredElsewhere(w: World, s: string, t: string, topic: string)
    requires t != topic
    ensures ViewOf(Restarting(w, Entered(w.s, s, t), Channel(w.s.prefix, t)), topic) == ViewOf(w, topic)
  {
    ChannelsDiffer(w.s.prefix, t, topic);
  }

  lemma EnteredHere(w: World, s: string, topic: string)
    requires Good(ViewOf(w, topic))
    ensures ViewOf(Restarting(w, Entered(w.s, s, topic), Channel(w.s.prefix, topic)), topic) ==
      ChannelStep(ViewOf(w, topic), Want)
  {
  }

  lemma LeftElsewhere(w: World, s: string, t: string, topic: string)
    requires t != topic && t in w.s.tables.local
    ensures ViewOf(w.(s := Left(w.s, s, t)), topic) == ViewOf(w, topic)
  {
    ChannelsDiffer(w.s.prefix, t, topic);
  }

  lemma LeftHere(w: World, s: string, topic: string)
    requires Shaped(w) && topic in w.s.tables.local
    ensures ViewOf(w.(s := Left(w.s, s, topic)), topic) ==
      ChannelStep(ViewOf(w, topic), if LastOne(w.s, s, topic) then Unwant else Stay)
  {
  }

  lemma DepartedRefines(w: World, s: string, topic: string)
    requires Shaped(w)
    ensures ViewOf(w.(s := Departed(w.s, s)), topic) ==
      ChannelStep(ViewOf(w, topic),
                  if topic in Get(w.s.tables.sockets, s) && LastOne(w.s, s, topic) then Unwant else Stay)
  {
    var topics := Get(w.s.tables.sockets, s);
    forall t { ChannelsDiffer(w.s.prefix, t, topic); }
    var ch := Channel(w.s.prefix, topic);
    assert ch in Orphaned(w.s, s, topics) <==>
      topic in topics && LastOne(w.s, s, topic) && ch in w.s.redisSubscriptions;
  }

  lemma SettleFrame(w: World, ch: string, i: nat, o: Outcome)
    requires i < |Ops(w.s, ch)|
    ensures var w' := SettleStep(w, ch, i, o);
      && OnlyChannel(w.s, w'.s, ch)
      && w'.broker <= w.broker + {ch} && w.broker <= w'.broker + {ch}
      && w'.gaveUp <= w.gaveUp + {ch} && w.gaveUp <= w'.gaveUp + {ch}
      && w'.drift <= w.drift + {ch} && w.drift <= w'.drift + {ch}
  {
    ReactFrame(w.s, ch, i);
  }

  lemma SettledElsewhere(w: World, ch: string, i: nat, o: Outcome, topic: string)
    requires ch != Channel(w.s.prefix, topic) && i < |Ops(w.s, ch)|
    ensures ViewOf(SettleStep(w, ch, i, o), topic) == ViewOf(w, topic)
  {
    SettleFrame(w, ch, i, o);
    assert SameAt(w.s, SettleStep(w, ch, i, o).s, Channel(w.s.prefix, topic));
  }

  lemma CommandHandled(w: World, o: Outcome, topic: string)
    requires Shaped(w) && Good(ViewOf(w, topic))
    requires var ops := Ops(w.s, Channel(w.s.prefix, topic));
      |ops| == 1 && (ops[0].SubscribeCommand? || ops[0].UnsubscribeCommand?)
    ensures ViewOf(SettleStep(w, Channel(w.s.prefix, topic), 0, o), topic) ==
      ChannelStep(ViewOf(w, topic), SettleOp(0, o))
  {
  }

  lemma SubscribeSettled(w: World, o: Outcome, topic: string)
    requires Shaped(w) && Good(ViewOf(w, topic))
    requires var ops := Ops(w.s, Channel(w.s.prefix, topic)); |ops| == 1 && ops[0].SubscribeReply?
    ensures ViewOf(SettleStep(w, Channel(w.s.prefix, topic), 0, o), topic) ==
      ChannelStep(ViewOf(w, topic), SettleOp(0, o))
  {
    ChannelRoundTrip(w.s.prefix, topic);
  }

  lemma TimerExpired(w: World, o: Outcome, topic: string)
    requires Shaped(w) && Good(ViewOf(w, topic))
    requires var ops := Ops(w.s, Channel(w.s.prefix, topic)); |ops| == 1 && ops[0].RetryTimer?
    ensures ViewOf(SettleStep(w, Channel(w.s.prefix, topic), 0, o), topic) ==
      ChannelStep(ViewOf(w, topic), SettleOp(0, o))
  {
  }

  lemma UnsubscribeSettled(w: World, o: Outcome, topic: string)
    requires Shaped(w) && Good(ViewOf(w, topic))
    requires var ops := Ops(w.s, Channel(w.s.prefix, topic)); |ops| == 1 && ops[0].UnsubscribeReply?
    ensures ViewOf(SettleStep(w, Channel(w.s.prefix, topic), 0, o), topic) ==
      ChannelStep(ViewOf(w, topic), SettleOp(0, o))
  {
    ChannelRoundTrip(w.s.prefix, topic);
  }

  lemma SettledHere(w: World, i: nat, o: Outcome, topic: string)
    requires var ch := Channel(w.s.prefix, topic); Shaped(w) && Good(ViewOf(w, topic)) && i < |Ops(w.s, ch)|
    ensures ViewOf(SettleStep(w, Channel(w.s.prefix, topic), i, o), topic) ==
      ChannelStep(ViewOf(w, topic), SettleOp(i, o))
  {
    match Ops(w.s, Channel(w.s.prefix, topic))[0]
    case SubscribeReply(_, _) => SubscribeSettled(w, o, topic);
    case RetryTimer(_) => TimerExpired(w, o, topic);
    case UnsubscribeReply(_) => UnsubscribeSettled(w, o, topic);
    case _ => CommandHandled(w, o, topic);
  }

  // The provider is the product of its channel machines: every event steps the machine of every
  // topic by what the event means for that topic.
  lemma StepRefines(w: World, e: Event, topic: string)
    requires Shaped(w) && Good(ViewOf(w, topic))
    ensures ViewOf(Step(w, e), topic) == ChannelStep(ViewOf(w, topic), LocalEvent(w, e, topic))
  {
    match e {
      case Join(s, t) =>
        if !ValidPair(s, t) { assert Step(w, e) == w; }
        else if t == topic { EnteredHere(w, s, t); }
        else { EnteredElsewhere(w, s, t, topic); }
      case Part(s, t) =>
        if !ValidPair(s, t) || t !in w.s.tables.local { assert Step(w, e) == w; }
        else if t == topic { LeftHere(w, s, t); }
        else { LeftElsewhere(w, s, t, topic); }
      case Close(s) =>
        if ValidSocketId(s) { DepartedRefines(w, s, topic); }
      case Settle(ch, i, o) =>
        if Enabled(w, e) {
          if ch == Channel(w.s.prefix, topic) { SettledHere(w, i, o, topic); }
          else { SettledElsewhere(w, ch, i, o, topic); }
        }
    }
  }

  // ---------------------------------------------------------------------
  // Every reachable state
  // ---------------------------------------------------------------------

  lemma JoinKeepsShape(w: World, s: string, t: string)
    requires Shaped(w)
    ensures Shaped(Restarting(w, Entered(w.s, s, t), Channel(w.s.prefix, t)))
  {
    ChannelsDiffer(w.s.prefix, t, t);
    ChannelRoundTrip(w.s.prefix, t);
  }

  lemma PartKeepsShape(w: World, s: string, t: string)
    requires Shaped(w) && t in w.s.tables.local
    ensures Shaped(w.(s := Left(w.s, s, t)))
  {
    ChannelsDiffer(w.s.prefix, t, t);
  }

  lemma CloseKeepsShape(w: World, s: string)
    requires Shaped(w)
    ensures Shaped(w.(s := Departed(w.s, s)))
  {
    forall t { ChannelsDiffer(w.s.prefix, t, t); }
  }

  lemma FrameKeepsShape(w: World, w': World, ch: string)
    requires Shaped(w) && ch in w.s.outstanding && OnlyChannel(w.s, w'.s, ch)
    requires w'.broker <= w.broker + {ch} && w'.drift <= w.drift + {ch}
    ensures Shaped(w')
  {
    assert Named(w, ch);
    forall c | Named(w', c) ensures IsChannel(w'.s.prefix, c) {
      if c != ch { assert SameAt(w.s, w'.s, c); assert Named(w, c); }
    }
    forall c | c in w'.s.pendingResubscribe
      ensures IsChannel(w'.s.prefix, c) && w'.s.pendingResubscribe[c] == TopicOf(w'.s.prefix, c)
    {
      if c != ch { assert SameAt(w.s, w'.s, c); }
    }
  }

  lemma SettleKeepsShape(w: World, ch: string, i: nat, o: Outcome)
    requires Shaped(w) && i < |Ops(w.s, ch)|
    ensures Shaped(SettleStep(w, ch, i, o))
  {
    SettleFrame(w, ch, i, o);
    FrameKeepsShape(w, SettleStep(w, ch, i, o), ch);
  }

  lemma StepKeepsInv(w: World, e: Event)
    requires Inv(w)
    ensures Inv(Step(w, e))
  {
    forall t ensures Good(ViewOf(Step(w, e), t)) {
      StepRefines(w, e, t);
      ChannelStepKeepsGood(ViewOf(w, t), LocalEvent(w, e, t));
    }
    match e {
      case Join(s, t) => if ValidPair(s, t) { JoinKeepsShape(w, s, t); }
      case Part(s, t) => if ValidPair(s, t) && t in w.s.tables.local { PartKeepsShape(w, s, t); }
      case Close(s) => if ValidSocketId(s) { CloseKeepsShape(w, s); }
      case Settle(ch, i, o) => if Enabled(w, e) { SettleKeepsShape(w, ch, i, o); }
    }
  }

  lemma {:induction false} RunKeepsInv(w: World, events: seq<Event>)
    requires Inv(w)
    ensures Inv(Run(w, events))
    decreases |events|
  {
    if events != [] {
      StepKeepsInv(w, events[0]);
      RunKeepsInv(Step(w, events[0]), events[1..]);
    }
  }

  lemma StartIsGood(prefix: string)
    ensures Inv(Start(prefix))
  {
  }

  // The machine of a channel, looked up by the channel's own name.
  function At(w: World, ch: string): View {
    View(Wanted(w.s, TopicOf(w.s.prefix, ch)), ch in w.s.redisSubscriptions, ch in w.s.pendingSubscriptions,
         ch in w.s.pendingUnsubscriptions, ch in w.s.pendingResubscribe,
         Ops(w.s, ch), ch in w.broker, ch in w.gaveUp, ch in w.drift)
  }

  lemma GoodAt(w: World, ch: string)
    requires Inv(w) && (Named(w, ch) || ch in w.s.pendingResubscribe)
    ensures Good(At(w, ch)) && IsChannel(w.s.prefix, ch)
  {
    assert At(w, ch) == ViewOf(w, TopicOf(w.s.prefix, ch));
  }

  lemma GoodOf(w: World, t: string)
    requires Inv(w)
    ensures Good(ViewOf(w, t))
  {
  }

  // Safety of the channel bookkeeping.
  ghost predicate Safe(w: World) {
    var s := w.s;
    && s.redisSubscriptions !! s.pendingSubscriptions + s.pendingUnsubscriptions
    && s.pendingSubscriptions !! s.pendingUnsubscriptions
    && s.pendingResubscribe.Keys <= s.pendingUnsubscriptions
    && s.redisSubscriptions <= w.broker
    && (forall ch :: |Ops(s, ch)| <= 1)
    && (forall ch :: Ops(s, ch) != [] <==> ch in s.pendingSubscriptions + s.pendingUnsubscriptions)
    && (forall ch :: ch in s.redisSubscriptions ==> Wanted(s, TopicOf(s.prefix, ch)))
    && (forall t :: Wanted(s, t) ==>
          var ch := Channel(s.prefix, t);
          ch in s.redisSubscriptions || ch in s.pendingSubscriptions || ch in s.pendingResubscribe || ch in w.gaveUp)
  }

  lemma InvIsSafe(w: World)
    requires Inv(w)
    ensures Safe(w)
  {
    forall ch | Named(w, ch) || ch in w.s.pendingResubscribe ensures Good(At(w, ch)) { GoodAt(w, ch); }
    forall ch
      ensures !(ch in w.s.redisSubscriptions && ch in w.s.pendingSubscriptions + w.s.pendingUnsubscriptions)
      ensures !(ch in w.s.pendingSubscriptions && ch in w.s.pendingUnsubscriptions)
      ensures |Ops(w.s, ch)| <= 1
      ensures Ops(w.s, ch) != [] <==> ch in w.s.pendingSubscriptions + w.s.pendingUnsubscriptions
      ensures ch in w.s.redisSubscriptions ==> ch in w.broker && Wanted(w.s, TopicOf(w.s.prefix, ch))
      ensures ch in w.s.pendingResubscribe ==> ch in w.s.pendingUnsubscriptions
    {
      if Named(w, ch) || ch in w.s.pendingResubscribe { assert Good(At(w, ch)); }
    }
    forall t | Wanted(w.s, t)
      ensures var ch := Channel(w.s.prefix, t);
        ch in w.s.redisSubscriptions || ch in w.s.pendingSubscriptions || ch in w.s.pendingResubscribe || ch in w.gaveUp
    {
      GoodOf(w, t);
    }
  }

  // The bookkeeping is safe in every state of every run.
  lemma ReachableSafety(prefix: string, events: seq<Event>)
    ensures Safe(Run(Start(prefix), events))
  {
    StartIsGood(prefix);
    RunKeepsInv(Start(prefix), events);
    InvIsSafe(Run(Start(prefix), events));
  }

  // The client calls of a run, in order.
  function Calls(events: seq<Event>): seq<Call>
    decreases |events|
  {
    if events == [] then []
    else
      var last := events[|events| - 1];
      var before := Calls(events[..|events| - 1]);
      match last
      case Join(s, t) => before + [SubscribeCall(s, t)]
      case Part(s, t) => before + [UnsubscribeCall(s, t)]
      case Close(s) => before + [DisconnectCall(s)]
      case Settle(_, _, _) => before
  }

  lemma {:induction false} RunSnoc(w: World, events: seq<Event>, e: Event)
    ensures Run(w, events + [e]) == Step(Run(w, events), e)
    decreases |events|
  {
    if events != [] {
      assert (events + [e])[1..] == events[1..] + [e];
      RunSnoc(Step(w, events[0]), events[1..], e);
    } else {
      assert [e][1..] == [];
    }
  }

  lemma StepTables(w: World, e: Event)
    ensures Step(w, e).s.tables ==
      match e
      case Join(s, t) => ApplyRedis(w.s.tables, SubscribeCall(s, t))
      case Part(s, t) => ApplyRedis(w.s.tables, UnsubscribeCall(s, t))
      case Close(s) => ApplyRedis(w.s.tables, DisconnectCall(s))
      case Settle(_, _, _) => w.s.tables
  {
  }

  // Whatever the replies do, the tables stay the canonical index of the live subscriptions.
  lemma {:induction false} TablesIgnoreReplies(prefix: string, events: seq<Event>)
    ensures Run(Start(prefix), events).s.tables == TablesOf(Meaning(Calls(events)))
    decreases |events|
  {
    ProvidersIndexTheSameRelation(Calls(events));
    if events != [] {
      var before, e := events[..|events| - 1], events[|events| - 1];
      assert events == before + [e];
      RunSnoc(Start(prefix), before, e);
      TablesIgnoreReplies(prefix, before);
      ProvidersIndexTheSameRelation(Calls(before));
      StepTables(Run(Start(prefix), before), e);
      if !e.Settle? {
        assert Calls(events)[..|Calls(events)| - 1] == Calls(before);
      }
    }
  }

  // ---------------------------------------------------------------------
  // Quiescence
  // ---------------------------------------------------------------------

  // An upper bound on the replies and timers still to come for one channel.
  function Remaining(ops: seq<Op>, resub: bool): nat {
    if ops == [] then 0
    else
      match ops[0]
      case SubscribeCommand(a) => if a <= 3 then 3 * (3 - a) + 4 else 0
      case SubscribeReply(a, _) => if a <= 3 then 3 * (3 - a) + 3 else 0
      case RetryTimer(a) => if a < 3 then 3 * (2 - a) + 5 else 0
      case UnsubscribeCommand => if resub then 12 else 2
      case UnsubscribeReply(_) => if resub then 11 else 1
  }

  ghost function Total(m: map<string, nat>): nat {
    if m == map[] then 0
    else
      var k :| k in m;
      m[k] + Total(m - {k})
  }

  function Weights(s: State): map<string, nat> {
    map ch | ch in s.outstanding :: Remaining(s.outstanding[ch], ch in s.pendingResubscribe)
  }

  ghost function Work(w: World): nat { Total(Weights(w.s)) }

  lemma {:induction false} TotalWithout(m: map<string, nat>, k: string)
    requires k in m
    ensures Total(m) == m[k] + Total(m - {k})
    decreases |m|
  {
    var k0 :| k0 in m && Total(m) == m[k0] + Total(m - {k0});
    if k0 != k {
      assert |m - {k0}| < |m| by { assert m == (m - {k0})[k0 := m[k0]]; }
      assert |m - {k}| < |m| by { assert m == (m - {k})[k := m[k]]; }
      TotalWithout(m - {k0}, k);
      TotalWithout(m - {k}, k0);
      assert m - {k0} - {k} == m - {k} - {k0};
    }
  }

  lemma TotalUpdate(m: map<string, nat>, k: string, x: nat)
    requires k in m
    ensures Total(m[k := x]) == Total(m) - m[k] + x
  {
    TotalWithout(m, k);
    TotalWithout(m[k := x], k);
    assert m[k := x] - {k} == m - {k};
  }

  lemma ChannelWorkDecreases(v: View, o: Outcome)
    requires Good(v) && v.ops != []
    ensures var v' := ChannelStep(v, SettleOp(0, o)); Remaining(v'.ops, v'.resub) < Remaining(v.ops, v.resub)
  {
  }

  lemma FrameUpdatesOneWeight(s: State, s': State, ch: string)
    requires OnlyChannel(s, s', ch) && ch in s.outstanding
    ensures Weights(s') == Weights(s)[ch := Remaining(Ops(s', ch), ch in s'.pendingResubscribe)]
  {
    forall c | c in Weights(s') && c != ch ensures Weights(s')[c] == Weights(s)[c] { assert SameAt(s, s', c); }
  }

  lemma FrameUpdatesWork(w: World, w': World, ch: string)
    requires OnlyChannel(w.s, w'.s, ch) && ch in w.s.outstanding
    ensures Work(w') == Work(w) - Remaining(Ops(w.s, ch), ch in w.s.pendingResubscribe)
                        + Remaining(Ops(w'.s, ch), ch in w'.s.pendingResubscribe)
  {
    FrameUpdatesOneWeight(w.s, w'.s, ch);
    TotalUpdate(Weights(w.s), ch, Remaining(Ops(w'.s, ch), ch in w'.s.pendingResubscribe));
  }

  // Handling an outstanding operation uses up work of its channel.
  lemma SettledChannelUsesWork(w: World, topic: string, o: Outcome)
    requires var ch := Channel(w.s.prefix, topic); Shaped(w) && Good(ViewOf(w, topic)) && |Ops(w.s, ch)| > 0
    ensures var v, v' := ViewOf(w, topic), ViewOf(SettleStep(w, Channel(w.s.prefix, topic), 0, o), topic);
      Remaining(v'.ops, v'.resub) < Remaining(v.ops, v.resub)
  {
    SettledHere(w, 0, o, topic);
    ChannelWorkDecreases(ViewOf(w, topic), o);
  }

  // Each reply or timer strictly uses up work.
  lemma SettleUsesWork(w: World, ch: string, i: nat, o: Outcome)
    requires Inv(w) && i < |Ops(w.s, ch)|
    ensures Work(Step(w, Settle(ch, i, o))) < Work(w)
    ensures Step(w, Settle(ch, i, o)).s.tables == w.s.tables
  {
    var t, w' := TopicOf(w.s.prefix, ch), SettleStep(w, ch, i, o);
    GoodAt(w, ch);
    GoodOf(w, t);
    SettledChannelUsesWork(w, t, o);
    SettleFrame(w, ch, i, o);
    FrameUpdatesWork(w, w', ch);
  }

  predicate Quiescent(w: World) {
    forall ch :: ch in w.s.outstanding ==> w.s.outstanding[ch] == []
  }

  // Without further client calls: only replies and timers, each for something outstanding.
  predicate Settling(w: World, events: seq<Event>)
    decreases |events|
  {
    events == [] || (events[0].Settle? && Enabled(w, events[0]) && Settling(Step(w, events[0]), events[1..]))
  }

  // Every run of replies and timers is bounded, and one that cannot go on has reached quiescence.
  lemma {:induction false} SettlingRunsAreBounded(w: World, events: seq<Event>)
    requires Inv(w) && Settling(w, events)
    ensures |events| <= Work(w) - Work(Run(w, events))
    ensures Run(w, events).s.tables == w.s.tables
    ensures Quiescent(Run(w, events)) <==> forall e: Event :: e.Settle? ==> !Enabled(Run(w, events), e)
    decreases |events|
  {
    if events != [] {
      var e := events[0];
      SettleUsesWork(w, e.ch, e.i, e.outcome);
      StepKeepsInv(w, e);
      SettlingRunsAreBounded(Step(w, e), events[1..]);
    } else if !Quiescent(w) {
      var ch :| ch in w.s.outstanding && w.s.outstanding[ch] != [];
      assert Enabled(w, Settle(ch, 0, Applied));
    }
  }

  // No UNSUBSCRIBE fails, and no SUBSCRIBE that was done is reported as failed.
  predicate Faultless(w: World, events: seq<Event>)
    decreases |events|
  {
    events == [] || (!Faulty(w, events[0]) && Faultless(Step(w, events[0]), events[1..]))
  }

  predicate Faulty(w: World, e: Event) {
    e.Settle? && Enabled(w, e) &&
    var op := Ops(w.s, e.ch)[e.i];
    (op.UnsubscribeCommand? && e.outcome.Failed?) || (op.SubscribeCommand? && e.outcome.Lost?)
  }

  lemma {:induction false} FaultlessRunsDoNotDrift(w: World, events: seq<Event>)
    requires w.drift == {} && Faultless(w, events)
    ensures Run(w, events).drift == {}
    decreases |events|
  {
    if events != [] { FaultlessRunsDoNotDrift(Step(w, events[0]), events[1..]); }
  }

  // The third attempt of a SUBSCRIBE, which is the last, fails or is reported as failed.
  predicate LastAttemptFails(w: World, e: Event) {
    e.Settle? && Enabled(w, e) &&
    var op := Ops(w.s, e.ch)[e.i];
    op.SubscribeCommand? && op.attempt >= 3 && !e.outcome.Applied?
  }

  // A failed attempt is followed by the next one after a timer, up to the third; a failed third attempt ends
  // the subscribe.
  lemma ThirdAttemptIsLast(w: World, ch: string, attempt: nat)
    requires Inv(w) && Ops(w.s, ch) == [SubscribeReply(attempt, false)]
    ensures 1 <= attempt <= 3
    ensures var w' := Step(w, Settle(ch, 0, Applied));
      if attempt < 3 then
        && Ops(w'.s, ch) == [RetryTimer(attempt)] && ch in w'.s.pendingSubscriptions && w'.gaveUp == w.gaveUp
        && Ops(Step(w', Settle(ch, 0, Applied)).s, ch) == [SubscribeCommand(attempt + 1)]
      else
        Ops(w'.s, ch) == [] && ch !in w'.s.pendingSubscriptions && w'.gaveUp == w.gaveUp + {ch}
  {
    GoodAt(w, ch);
  }

  predicate NoLastAttemptFails(w: World, events: seq<Event>)
    decreases |events|
  {
    events == [] || (!LastAttemptFails(w, events[0]) && NoLastAttemptFails(Step(w, events[0]), events[1..]))
  }

  predicate EndsSubscribe(op: Op) { op.SubscribeReply? && !op.ok && op.attempt >= SUBSCRIBE_MAX_RETRIES }

  // No channel has given up or is about to.
  ghost predicate Persistent(w: World) { w.gaveUp == {} && forall ch :: Quiet(Ops(w.s, ch)) }

  ghost predicate Quiet(ops: seq<Op>) { forall i :: 0 <= i < |ops| ==> !EndsSubscribe(ops[i]) }

  lemma QuietChannelStaysQuiet(w: World, ch: string, i: nat, o: Outcome)
    requires Persistent(w) && i < |Ops(w.s, ch)| && !LastAttemptFails(w, Settle(ch, i, o))
    ensures Quiet(Ops(SettleStep(w, ch, i, o).s, ch)) && SettleStep(w, ch, i, o).gaveUp == {}
  {
    var rest := Ops(Remove1(w.s, ch, i), ch);
    assert Quiet(rest) by {
      forall j | 0 <= j < |rest| ensures !EndsSubscribe(rest[j]) {
        assert rest[j] == Ops(w.s, ch)[if j < i then j else j + 1];
      }
    }
  }

  lemma StepStaysPersistent(w: World, e: Event)
    requires Persistent(w) && !LastAttemptFails(w, e)
    ensures Persistent(Step(w, e))
  {
    if e.Settle? && Enabled(w, e) {
      QuietChannelStaysQuiet(w, e.ch, e.i, e.outcome);
      SettleFrame(w, e.ch, e.i, e.outcome);
      var s' := Step(w, e).s;
      forall ch ensures Quiet(Ops(s', ch)) { assert ch != e.ch ==> Ops(s', ch) == Ops(w.s, ch); }
    } else {
      forall ch ensures Quiet(Ops(Step(w, e).s, ch)) { assert Quiet(Ops(w.s, ch)); }
    }
  }

  lemma {:induction false} PersistentRunsDoNotGiveUp(w: World, events: seq<Event>)
    requires Persistent(w) && NoLastAttemptFails(w, events)
    ensures Persistent(Run(w, events))
    decreases |events|
  {
    if events != [] {
      StepStaysPersistent(w, events[0]);
      PersistentRunsDoNotGiveUp(Step(w, events[0]), events[1..]);
    }
  }

  // At quiescence nothing is pending, the subscribed channels are exactly those of the topics with
  // local subscribers whose subscribe did not give up, and the broker delivers exactly those and the
  // channels on which a faulty command left it behind.
  lemma QuiescenceIsExact(prefix: string, events: seq<Event>)
    requires Quiescent(Run(Start(prefix), events))
    ensures var w := Run(Start(prefix), events); var s := w.s;
      && s.pendingSubscriptions == {} && s.pendingUnsubscriptions == {} && s.pendingResubscribe == map[]
      && (forall t :: Channel(s.prefix, t) in s.redisSubscriptions <==>
            Wanted(s, t) && Channel(s.prefix, t) !in w.gaveUp)
      && (forall ch :: ch in s.redisSubscriptions ==> ch == Channel(s.prefix, TopicOf(s.prefix, ch)))
      && w.broker == s.redisSubscriptions + w.drift && s.redisSubscriptions !! w.drift
      && (Faultless(Start(prefix), events) ==> w.broker == s.redisSubscriptions)
      && (NoLastAttemptFails(Start(prefix), events) ==>
            forall t :: Channel(s.prefix, t) in s.redisSubscriptions <==> Wanted(s, t))
  {
    StartIsGood(prefix);
    RunKeepsInv(Start(prefix), events);
    var w := Run(Start(prefix), events);
    if Faultless(Start(prefix), events) { FaultlessRunsDoNotDrift(Start(prefix), events); }
    if NoLastAttemptFails(Start(prefix), events) { PersistentRunsDoNotGiveUp(Start(prefix), events); }
    forall ch | Named(w, ch) || ch in w.s.pendingResubscribe
      ensures IsChannel(w.s.prefix, ch) && Good(At(w, ch)) && Ops(w.s, ch) == []
    {
      GoodAt(w, ch);
    }
    forall t ensures Good(ViewOf(w, t)) && Ops(w.s, Channel(w.s.prefix, t)) == [] { GoodOf(w, t); }
    forall ch
      ensures ch !in w.s.pendingSubscriptions && ch !in w.s.pendingUnsubscriptions && ch !in w.s.pendingResubscribe
    {
      if Named(w, ch) || ch in w.s.pendingResubscribe { assert Good(At(w, ch)); }
    }
    assert w.s.pendingResubscribe.Keys == {};
    forall ch
      ensures ch in w.broker <==> ch in w.s.redisSubscriptions || ch in w.drift
      ensures !(ch in w.s.redisSubscriptions && ch in w.drift)
    {
      if Named(w, ch) { assert Good(At(w, ch)); }
    }
  }
}
