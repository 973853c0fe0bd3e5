// Concurrent getOrSet calls: sharing a flight per key, reading the cache, running the factory under a
// timeout, writing the result, and falling back on a stale value.
module CacheFetch {
  import opened Options

  // A stored entry; `graceUntil` is absent when there is no grace period.
  datatype Entry = Entry(value: string, createdAt: int, expiresAt: int, graceUntil: Option<int>)

  // The configured ttl and grace period of an entry, in milliseconds.
  datatype Lifespan = Lifespan(ttlMs: int, graceMs: int)

  datatype Outcome =
    | Returned(value: string)
    | ReturnedNothing
    | Threw(error: string)

  // What the factory did: returned, skipped, reported failure, or threw. None while it runs.
  datatype Factory = Produced(value: string) | Skipped | ReportedFailure | FactoryThrew(error: string)

  datatype Phase = Reading | Producing(deadline: int) | Writing(value: string) | Settled(outcome: Outcome)

  // One flight. `read` is what it found and when; `factory` and `timedOut` are what came of the factory.
  datatype Flight = Flight(
    key: string, phase: Phase, read: Option<(Option<Entry>, int)>,
    factoryRunning: bool, factory: Option<Factory>, timedOut: bool)

  datatype Caller = Caller(key: string, flight: nat)

  // `runs`, `callers` and `writes` are history; `writes` names the flight behind each write.
  datatype World = World(
    store: map<string, Entry>, now: int,
    flights: map<string, nat>, runs: seq<Flight>, callers: seq<Caller>, writes: seq<nat>)

  datatype Event =
    | Call(key: string)
    | ReadReply(r: nat, timeoutMs: nat)
    | ReadFails(r: nat, reason: string)
    | FactoryEnds(r: nat, how: Factory)
    | TimeoutFires(r: nat)
    | WriteReply(r: nat, stored: Option<Lifespan>, error: Option<string>)
    | StoreChanges(key: string, entry: Option<Entry>)
    | Wait(ms: nat)

  predicate Fresh(e: Option<Entry>, now: int) { e.Some? && e.value.expiresAt > now }

  predicate Stale(e: Option<Entry>, now: int) {
    e.Some? && e.value.expiresAt <= now && e.value.graceUntil.Some? && e.value.graceUntil.value > now
  }

  // The stale value a flight may fall back on.
  function StaleValue(f: Flight): Option<string> {
    if f.read.Some? && Stale(f.read.value.0, f.read.value.1) then Some(f.read.value.0.value.value) else None
  }

  function Fallback(f: Flight, error: string): Outcome {
    match StaleValue(f) case Some(v) => Returned(v) case None => Threw(error)
  }

  predicate Enabled(w: World, e: Event) {
    match e
    case ReadReply(r, _) => r < |w.runs| && w.runs[r].phase.Reading?
    case ReadFails(r, _) => r < |w.runs| && w.runs[r].phase.Reading?
    case FactoryEnds(r, _) => r < |w.runs| && w.runs[r].factoryRunning
    case TimeoutFires(r) => r < |w.runs| && w.runs[r].phase.Producing? && w.runs[r].phase.deadline <= w.now
    case WriteReply(r, _, _) => r < |w.runs| && w.runs[r].phase.Writing?
    case _ => true
  }

  function Settle(w: World, r: nat, f: Flight, outcome: Outcome): World
    requires r < |w.runs|
  {
    w.(runs := w.runs[r := f.(phase := Settled(outcome))], flights := w.flights - {f.key})
  }

  function CallStep(w: World, key: string): World {
    if key in w.flights then w.(callers := w.callers + [Caller(key, w.flights[key])])
    else
      w.(flights := w.flights[key := |w.runs|],
         runs := w.runs + [Flight(key, Reading, None, false, None, false)],
         callers := w.callers + [Caller(key, |w.runs|)])
  }

  // A fresh entry settles the flight; otherwise the factory starts, with a deadline.
  function ReadStep(w: World, r: nat, timeoutMs: nat): World
    requires r < |w.runs|
  {
    var key := w.runs[r].key;
    var entry := if key in w.store then Some(w.store[key]) else None;
    var f := w.runs[r].(read := Some((entry, w.now)));
    if Fresh(entry, w.now) then Settle(w, r, f, Returned(entry.value.value))
    else w.(runs := w.runs[r := f.(phase := Producing(w.now + timeoutMs), factoryRunning := true)])
  }

  // A factory that ends after its flight has moved on changes nothing else.
  function FactoryStep(w: World, r: nat, how: Factory): World
    requires r < |w.runs|
  {
    var f := w.runs[r].(factoryRunning := false);
    if !f.phase.Producing? then w.(runs := w.runs[r := f])
    else
      var f' := f.(factory := Some(how));
      match how
      case Produced(value) => w.(runs := w.runs[r := f'.(phase := Writing(value))])
      case Skipped => Settle(w, r, f', ReturnedNothing)
      case ReportedFailure => Settle(w, r, f', Fallback(f', "failed"))
      case FactoryThrew(error) => Settle(w, r, f', Threw(error))
  }

  function TimeoutStep(w: World, r: nat): World
    requires r < |w.runs|
  {
    var f := w.runs[r].(timedOut := true);
    Settle(w, r, f, Fallback(f, "timed out"))
  }

  function NewEntry(value: string, now: int, l: Lifespan): Entry {
    Entry(value, now, now + l.ttlMs, if l.graceMs > 0 then Some(now + l.ttlMs + l.graceMs) else None)
  }

  // The write may be skipped, for a null that is not cached, or throw.
  function WriteStep(w: World, r: nat, stored: Option<Lifespan>, error: Option<string>): World
    requires Enabled(w, WriteReply(r, stored, error))
  {
    var f := w.runs[r];
    if error.Some? then Settle(w, r, f, Threw(error.value))
    else
      var w' := Settle(w, r, f, Returned(f.phase.value));
      match stored
      case Some(l) => w'.(store := w.store[f.key := NewEntry(f.phase.value, w.now, l)], writes := w.writes + [r])
      case None => w'
  }

  function Step(w: World, e: Event): World
    requires Enabled(w, e)
  {
    match e
    case Call(key) => CallStep(w, key)
    case ReadReply(r, timeoutMs) => ReadStep(w, r, timeoutMs)
    case ReadFails(r, error) => Settle(w, r, w.runs[r], Threw(error))
    case FactoryEnds(r, how) => FactoryStep(w, r, how)
    case TimeoutFires(r) => TimeoutStep(w, r)
    case WriteReply(r, stored, error) => WriteStep(w, r, stored, error)
    case StoreChanges(key, Some(entry)) => w.(store := w.store[key := entry])
    case StoreChanges(key, None) => w.(store := w.store - {key})
    case Wait(ms) => w.(now := w.now + ms)
  }

  // The read found an entry that had not expired, or one that had but was in its grace period.
  predicate ReadUnexpired(f: Flight, v: string) {
    && f.read.Some? && f.read.value.0.Some?
    && var (entry, at) := (f.read.value.0.value, f.read.value.1);
       entry.value == v && at < entry.expiresAt
  }

  predicate ReadInGrace(f: Flight, v: string) {
    && f.read.Some? && f.read.value.0.Some?
    && var (entry, at) := (f.read.value.0.value, f.read.value.1);
       entry.value == v && entry.expiresAt <= at && entry.graceUntil.Some? && at < entry.graceUntil.value
  }

  // Why a flight's outcome is what it is.
  ghost predicate Justified(f: Flight) {
    match f.phase
    case Settled(Returned(v)) =>
      || (ReadUnexpired(f, v) && f.factory.None?)
      || (f.factory == Some(Produced(v)) && !f.timedOut)
      || ((f.timedOut || f.factory == Some(ReportedFailure)) && ReadInGrace(f, v))
    case Settled(ReturnedNothing) => f.factory == Some(Skipped) && !f.timedOut
    case Settled(Threw(error)) =>
      || NeverRead(f)
      || (f.factory == Some(FactoryThrew(error)) && !f.timedOut)
      || (f.factory.Some? && f.factory.value.Produced? && !f.timedOut)
      || ((f.timedOut || f.factory == Some(ReportedFailure)) && forall v :: !ReadInGrace(f, v))
    case Writing(v) => f.factory == Some(Produced(v)) && !f.timedOut
    case Producing(_) =>
      && f.read.Some? && (forall v :: !ReadUnexpired(f, v))
      && f.factory.None? && !f.timedOut && f.factoryRunning
    case Reading => NeverRead(f)
  }

  // The cache has not answered, so no factory has been started.
  predicate NeverRead(f: Flight) { f.read.None? && f.factory.None? && !f.timedOut && !f.factoryRunning }

  predicate Open(w: World, r: int) { 0 <= r < |w.runs| && !w.runs[r].phase.Settled? }

  ghost predicate Inv(w: World) {
    && (forall r :: 0 <= r < |w.runs| ==> Justified(w.runs[r]))
    && (forall key :: key in w.flights ==> Open(w, w.flights[key]) && w.runs[w.flights[key]].key == key)
    && (forall r :: Open(w, r) ==> w.runs[r].key in w.flights && w.flights[w.runs[r].key] == r)
    && (forall i :: 0 <= i < |w.callers| ==>
         w.callers[i].flight < |w.runs| && w.runs[w.callers[i].flight].key == w.callers[i].key)
    && (forall i :: 0 <= i < |w.writes| ==> w.writes[i] < |w.runs| && Wrote(w.runs[w.writes[i]]))
  }

  // A flight that wrote had a value from its factory in time, and returned it.
  predicate Wrote(f: Flight) {
    !f.timedOut && f.factory.Some? && f.factory.value.Produced? && f.phase == Settled(Returned(f.factory.value.value))
  }

  // The flight of run `r` is replaced by `f`, which stays open or settles.
  ghost predicate Replaces(w: World, w': World, r: nat, f: Flight) {
    && r < |w.runs| && w'.runs == w.runs[r := f] && w'.callers == w.callers && f.key == w.runs[r].key
    && w'.flights == if f.phase.Settled? && !w.runs[r].phase.Settled? then w.flights - {f.key} else w.flights
  }

  lemma ReplacingKeepsInv(w: World, w': World, r: nat, f: Flight)
    requires Inv(w) && Replaces(w, w', r, f) && Justified(f)
    requires w.runs[r].phase.Settled? ==>
      f.phase == w.runs[r].phase && f.factory == w.runs[r].factory && f.timedOut == w.runs[r].timedOut
    requires w'.writes == w.writes || (w'.writes == w.writes + [r] && Wrote(f))
    ensures Inv(w')
  {
    forall key | key in w'.flights ensures Open(w', w'.flights[key]) && w'.runs[w'.flights[key]].key == key {
      assert Open(w, w.flights[key]);
      if w.flights[key] == r { assert Open(w, r); }
    }
    forall x | Open(w', x) ensures w'.runs[x].key in w'.flights && w'.flights[w'.runs[x].key] == x {
      assert Open(w, x);
      if Open(w, r) && x != r { assert w.flights[w.runs[r].key] == r; }
    }
  }

  lemma CallKeepsInv(w: World, key: string)
    requires Inv(w)
    ensures Inv(CallStep(w, key))
  {
    var w' := CallStep(w, key);
    forall x | Open(w', x) ensures w'.runs[x].key in w'.flights && w'.flights[w'.runs[x].key] == x {
      if x < |w.runs| { assert Open(w, x); }
    }
  }

  lemma ReadKeepsInv(w: World, r: nat, timeoutMs: nat)
    requires Inv(w) && Enabled(w, ReadReply(r, timeoutMs))
    ensures Inv(ReadStep(w, r, timeoutMs))
  {
    ReplacingKeepsInv(w, ReadStep(w, r, timeoutMs), r, ReadStep(w, r, timeoutMs).runs[r]);
  }

  lemma FailedReadKeepsInv(w: World, r: nat, error: string)
    requires Inv(w) && Enabled(w, ReadFails(r, error))
    ensures Inv(Step(w, ReadFails(r, error)))
  {
    ReplacingKeepsInv(w, Step(w, ReadFails(r, error)), r, w.runs[r].(phase := Settled(Threw(error))));
  }

  lemma StaleValueExactly(f: Flight)
    ensures forall v :: StaleValue(f) == Some(v) <==> ReadInGrace(f, v)
    ensures StaleValue(f).None? <==> forall v :: !ReadInGrace(f, v)
  {
    if StaleValue(f).Some? { assert ReadInGrace(f, StaleValue(f).value); }
  }

  lemma FactoryKeepsInv(w: World, r: nat, how: Factory)
    requires Inv(w) && Enabled(w, FactoryEnds(r, how))
    ensures Inv(FactoryStep(w, r, how))
  {
    var f, f' := w.runs[r].(factoryRunning := false, factory := Some(how)), FactoryStep(w, r, how).runs[r];
    StaleValueExactly(f);
    assert f'.read == f.read == w.runs[r].read;
    forall v ensures ReadInGrace(f', v) <==> ReadInGrace(f, v) {}
    forall v ensures ReadInGrace(f', v) <==> ReadInGrace(w.runs[r], v) {}
    assert Justified(w.runs[r]);
    assert Justified(f');
    ReplacingKeepsInv(w, FactoryStep(w, r, how), r, FactoryStep(w, r, how).runs[r]);
  }

  lemma TimeoutKeepsInv(w: World, r: nat)
    requires Inv(w) && Enabled(w, TimeoutFires(r))
    ensures Inv(TimeoutStep(w, r))
  {
    StaleValueExactly(w.runs[r]);
    ReplacingKeepsInv(w, TimeoutStep(w, r), r, TimeoutStep(w, r).runs[r]);
  }

  lemma WriteKeepsInv(w: World, r: nat, stored: Option<Lifespan>, error: Option<string>)
    requires Inv(w) && Enabled(w, WriteReply(r, stored, error))
    ensures Inv(WriteStep(w, r, stored, error))
  {
    ReplacingKeepsInv(w, WriteStep(w, r, stored, error), r, WriteStep(w, r, stored, error).runs[r]);
  }

  lemma StepKeepsInv(w: World, e: Event)
    requires Inv(w) && Enabled(w, e)
    ensures Inv(Step(w, e))
  {
    match e {
      case Call(key) => CallKeepsInv(w, key);
      case ReadReply(r, timeoutMs) => ReadKeepsInv(w, r, timeoutMs);
      case ReadFails(r, error) => FailedReadKeepsInv(w, r, error);
      case FactoryEnds(r, how) => FactoryKeepsInv(w, r, how);
      case TimeoutFires(r) => TimeoutKeepsInv(w, r);
      case WriteReply(r, stored, error) => WriteKeepsInv(w, r, stored, error);
      case StoreChanges(_, _) => OtherKeepsInv(w, Step(w, e));
      case Wait(_) => OtherKeepsInv(w, Step(w, e));
    }
  }

  lemma OtherKeepsInv(w: World, w': World)
    requires Inv(w)
    requires w'.runs == w.runs && w'.flights == w.flights && w'.callers == w.callers && w'.writes == w.writes
    ensures Inv(w')
  {
    forall x | Open(w', x) ensures w'.runs[x].key in w'.flights && w'.flights[w'.runs[x].key] == x {
      assert Open(w, x);
    }
  }

  predicate Legal(w: World, events: seq<Event>)
    decreases |events|
  {
    events == [] || (Enabled(w, events[0]) && Legal(Step(w, events[0]), events[1..]))
  }

  function Run(w: World, events: seq<Event>): World
    requires Legal(w, events)
    decreases |events|
  {
    if events == [] then w else Run(Step(w, events[0]), events[1..])
  }

  lemma {:induction false} RunKeepsInv(w: World, events: seq<Event>)
    requires Inv(w) && Legal(w, events)
    ensures Inv(Run(w, events))
    decreases |events|
  {
    if events != [] {
      StepKeepsInv(w, events[0]);
      RunKeepsInv(Step(w, events[0]), events[1..]);
    }
  }

  function Start(store: map<string, Entry>): World { World(store, 0, map[], [], [], []) }

  // In every reachable state: at most one open flight per key; every caller's flight is for its key and
  // its outcome is a value that was fresh when read, the value the factory returned in time, a value in
  // its grace period when read, nothing because the factory skipped, or an error of the read, the
  // factory, its timeout or the write; and only a factory that returned before its timeout has written.
  lemma ReachableFetches(store: map<string, Entry>, events: seq<Event>)
    requires Legal(Start(store), events)
    ensures var w := Run(Start(store), events);
      && (forall r, r' :: Open(w, r) && Open(w, r') && w.runs[r].key == w.runs[r'].key ==> r == r')
      && (forall i :: 0 <= i < |w.callers| ==>
            w.callers[i].flight < |w.runs| && w.runs[w.callers[i].flight].key == w.callers[i].key
            && Justified(w.runs[w.callers[i].flight]))
      && (forall i :: 0 <= i < |w.writes| ==> w.writes[i] < |w.runs| && Wrote(w.runs[w.writes[i]]))
  {
    RunKeepsInv(Start(store), events);
  }

  lemma StepKeepsOutcome(w: World, e: Event, r: nat)
    requires Inv(w) && Enabled(w, e) && r < |w.runs| && w.runs[r].phase.Settled?
    ensures r < |Step(w, e).runs| && Step(w, e).runs[r].phase == w.runs[r].phase
  {
  }

  // A settled flight keeps its outcome whatever happens next, so all its callers get the same one.
  lemma {:induction false} OutcomesLast(w: World, events: seq<Event>, r: nat)
    requires Inv(w) && Legal(w, events) && r < |w.runs| && w.runs[r].phase.Settled?
    ensures var w' := Run(w, events); r < |w'.runs| && w'.runs[r].phase == w.runs[r].phase
    decreases |events|
  {
    if events != [] {
      StepKeepsInv(w, events[0]);
      StepKeepsOutcome(w, events[0], r);
      OutcomesLast(Step(w, events[0]), events[1..], r);
    }
  }

  // A call made while a flight is open for its key joins that flight and starts no factory.
  lemma OpenFlightIsShared(w: World, r: int)
    requires Inv(w) && Open(w, r)
    ensures var w' := CallStep(w, w.runs[r].key);
      w'.runs == w.runs && w'.callers == w.callers + [Caller(w.runs[r].key, r)]
  {
  }

  // Once its flight has timed out, a factory's end touches neither the store nor any outcome.
  lemma LateFactoryIsIgnored(w: World, r: nat, how: Factory)
    requires Inv(w) && Enabled(w, FactoryEnds(r, how)) && w.runs[r].timedOut
    ensures var w' := Step(w, FactoryEnds(r, how));
      && w'.store == w.store && w'.writes == w.writes && w'.flights == w.flights
      && |w'.runs| == |w.runs| && forall x :: 0 <= x < |w.runs| ==> w'.runs[x].phase == w.runs[x].phase
  {
    assert Justified(w.runs[r]);
  }

  // ---------------------------------------------------------------------
  // What each event decides
  // ---------------------------------------------------------------------

  // A call for a key without an open flight opens one, which reads the cache first.
  lemma NewFlightReads(w: World, key: string)
    requires key !in w.flights
    ensures var w' := Step(w, Call(key));
      && w'.runs == w.runs + [Flight(key, Reading, None, false, None, false)] && w'.store == w.store
      && w'.flights == w.flights[key := |w.runs|] && w'.callers == w.callers + [Caller(key, |w.runs|)]
  {
  }

  // A failing read is thrown, and no factory is started.
  lemma FailedReadThrows(w: World, r: nat, reason: string)
    requires Inv(w) && Enabled(w, ReadFails(r, reason))
    ensures var w' := Step(w, ReadFails(r, reason));
      && w'.runs[r].phase == Settled(Threw(reason)) && !w'.runs[r].factoryRunning
      && w'.store == w.store && w.runs[r].key !in w'.flights
  {
    assert Justified(w.runs[r]);
  }

  // An entry that has not expired is returned and no factory is started; a missing or expired one always
  // starts the factory, with its deadline.
  lemma ReadDecidesExactly(w: World, r: nat, timeoutMs: nat)
    requires Inv(w) && Enabled(w, ReadReply(r, timeoutMs))
    ensures var key, w' := w.runs[r].key, Step(w, ReadReply(r, timeoutMs));
      var f := w'.runs[r];
      && w'.store == w.store
      && if key in w.store && w.now < w.store[key].expiresAt then
           f.phase == Settled(Returned(w.store[key].value)) && !f.factoryRunning && key !in w'.flights
         else
           f.phase == Producing(w.now + timeoutMs) && f.factoryRunning && w'.flights == w.flights
  {
    assert Justified(w.runs[r]);
  }

  // The end of a factory in time is written, returns nothing, throws, or falls back on the value read in its
  // grace period, if there is one.
  lemma FactoryDecidesExactly(w: World, r: nat, how: Factory)
    requires Enabled(w, FactoryEnds(r, how)) && w.runs[r].phase.Producing?
    ensures var f, w' := w.runs[r], Step(w, FactoryEnds(r, how));
      && w'.store == w.store && !w'.runs[r].factoryRunning
      && (how.Produced? ==> w'.runs[r].phase == Writing(how.value))
      && (how.Skipped? ==> w'.runs[r].phase == Settled(ReturnedNothing))
      && (how.FactoryThrew? ==> w'.runs[r].phase == Settled(Threw(how.error)))
      && (how.ReportedFailure? ==>
            && (forall v :: ReadInGrace(f, v) ==> w'.runs[r].phase == Settled(Returned(v)))
            && ((forall v :: !ReadInGrace(f, v)) ==>
                  w'.runs[r].phase.Settled? && w'.runs[r].phase.outcome.Threw?))
  {
    StaleValueExactly(w.runs[r]);
  }

  // A timeout falls back likewise.
  lemma TimeoutDecidesExactly(w: World, r: nat)
    requires Enabled(w, TimeoutFires(r))
    ensures var f, w' := w.runs[r], Step(w, TimeoutFires(r));
      && w'.store == w.store && w'.runs[r].timedOut && f.key !in w'.flights
      && (forall v :: ReadInGrace(f, v) ==> w'.runs[r].phase == Settled(Returned(v)))
      && ((forall v :: !ReadInGrace(f, v)) ==> w'.runs[r].phase.Settled? && w'.runs[r].phase.outcome.Threw?)
  {
    StaleValueExactly(w.runs[r]);
  }

  // A write leaves the factory's value under the key, until its ttl and then its grace period have passed,
  // unless it is not cached or the write throws.
  lemma WriteDecidesExactly(w: World, r: nat, stored: Option<Lifespan>, error: Option<string>)
    requires Inv(w) && Enabled(w, WriteReply(r, stored, error))
    ensures var f, w' := w.runs[r], Step(w, WriteReply(r, stored, error));
      && f.factory.Some? && f.factory.value.Produced? && f.key !in w'.flights
      && var v := f.factory.value.value;
         match (error, stored)
         case (Some(e), _) => w'.runs[r].phase == Settled(Threw(e)) && w'.store == w.store
         case (None, None) => w'.runs[r].phase == Settled(Returned(v)) && w'.store == w.store
         case (None, Some(l)) =>
           && w'.runs[r].phase == Settled(Returned(v)) && f.key in w'.store
           && (forall key :: key != f.key ==> (key in w'.store <==> key in w.store))
           && (forall key :: key != f.key && key in w.store ==> w'.store[key] == w.store[key])
           && var entry := w'.store[f.key];
              && entry.value == v && entry.createdAt == w.now && entry.expiresAt == w.now + l.ttlMs
              && (l.graceMs > 0 ==> entry.graceUntil == Some(w.now + l.ttlMs + l.graceMs))
              && (l.graceMs <= 0 ==> entry.graceUntil == None)
  {
    assert Justified(w.runs[r]);
  }
}
