// Sharing one execution per key among concurrent callers, with errors kept for a while.
// Keys are not forgotten or cleared, and functions return promises.
module Singleflights {
  import opened Options

  datatype Outcome = Value(text: string) | Error(text: string)

  datatype CachedError = CachedError(error: string, until: int)

  // One execution: its key, and how and when it settled.
  datatype Flight = Flight(key: string, settled: Option<Outcome>, at: int)

  // What a caller was given: the promise of a flight, or a kept error.
  datatype Answer = Joins(flight: nat) | Rethrows(error: string)

  datatype Call = Call(key: string, at: int, answer: Answer)

  // `started` and `calls` are history: all executions and all calls so far.
  datatype State = State(
    flights: map<string, nat>,
    errors: map<string, CachedError>,
    started: seq<Flight>,
    calls: seq<Call>,
    now: int
  )

  datatype Event = Do(key: string) | Settles(flight: nat, outcome: Outcome) | Wait(ms: nat)

  predicate Enabled(s: State, e: Event) {
    e.Settles? ==> e.flight < |s.started| && s.started[e.flight].settled.None?
  }

  function DoStep(s: State, key: string): State {
    if key in s.errors && s.errors[key].until > s.now then
      s.(calls := s.calls + [Call(key, s.now, Rethrows(s.errors[key].error))])
    else if key in s.flights then
      s.(calls := s.calls + [Call(key, s.now, Joins(s.flights[key]))])
    else
      s.(flights := s.flights[key := |s.started|],
         started := s.started + [Flight(key, None, 0)],
         calls := s.calls + [Call(key, s.now, Joins(|s.started|))])
  }

  function SettleStep(s: State, flight: nat, outcome: Outcome, errorTtlMs: nat): State
    requires flight < |s.started|
  {
    var key := s.started[flight].key;
    s.(flights := s.flights - {key},
       errors := if outcome.Value? then s.errors - {key}
                 else s.errors[key := CachedError(outcome.text, s.now + errorTtlMs)],
       started := s.started[flight := Flight(key, Some(outcome), s.now)])
  }

  function Step(s: State, e: Event, errorTtlMs: nat): State
    requires Enabled(s, e)
  {
    match e
    case Do(key) => DoStep(s, key)
    case Settles(flight, outcome) => SettleStep(s, flight, outcome, errorTtlMs)
    case Wait(ms) => s.(now := s.now + ms)
  }

  predicate Legal(s: State, events: seq<Event>, errorTtlMs: nat)
    decreases |events|
  {
    events == [] || (Enabled(s, events[0]) && Legal(Step(s, events[0], errorTtlMs), events[1..], errorTtlMs))
  }

  function Run(s: State, events: seq<Event>, errorTtlMs: nat): State
    requires Legal(s, events, errorTtlMs)
    decreases |events|
  {
    if events == [] then s else Run(Step(s, events[0], errorTtlMs), events[1..], errorTtlMs)
  }

  const START := State(map[], map[], [], [], 0)

  predicate Running(s: State, f: int) { 0 <= f < |s.started| && s.started[f].settled.None? }

  // `errors` holds the outcome of a failed flight of that key, for `errorTtlMs` after it settled.
  ghost predicate KeptError(s: State, key: string, error: string, until: int, errorTtlMs: nat) {
    exists f :: 0 <= f < |s.started| && s.started[f].key == key && s.started[f].settled == Some(Error(error))
      && until == s.started[f].at + errorTtlMs && s.started[f].at <= s.now
  }

  // A caller joins an execution of its key that has not settled by the time of the call, or is thrown an
  // error kept then.
  ghost predicate Answered(s: State, c: Call, errorTtlMs: nat) {
    c.at <= s.now &&
    match c.answer
    case Joins(f) =>
      && f < |s.started| && s.started[f].key == c.key
      && (s.started[f].settled.Some? ==> c.at <= s.started[f].at)
    case Rethrows(error) => exists until :: until > c.at && KeptError(s, c.key, error, until, errorTtlMs)
  }

  // `flights` holds exactly the running executions, one per key.
  ghost predicate FlightsRun(s: State) {
    && (forall key :: key in s.flights ==> Running(s, s.flights[key]) && s.started[s.flights[key]].key == key)
    && (forall f :: Running(s, f) ==> s.started[f].key in s.flights && s.flights[s.started[f].key] == f)
  }

  ghost predicate Inv(s: State, errorTtlMs: nat) {
    && FlightsRun(s)
    && (forall key :: key in s.errors ==> KeptError(s, key, s.errors[key].error, s.errors[key].until, errorTtlMs))
    && (forall i :: 0 <= i < |s.calls| ==> Answered(s, s.calls[i], errorTtlMs))
  }

  // Settled flights stay as they are, and running ones keep their key.
  ghost predicate Extends(s: State, s': State) {
    && s.now <= s'.now && |s.started| <= |s'.started|
    && forall f :: 0 <= f < |s.started| ==>
         && s'.started[f].key == s.started[f].key
         && (s.started[f].settled.Some? ==> s'.started[f] == s.started[f])
         && (s.started[f].settled.None? && s'.started[f].settled.Some? ==> s.now <= s'.started[f].at)
  }

  lemma KeptErrorLasts(s: State, s': State, key: string, error: string, until: int, errorTtlMs: nat)
    requires KeptError(s, key, error, until, errorTtlMs) && Extends(s, s')
    ensures KeptError(s', key, error, until, errorTtlMs)
  {
    var f :| 0 <= f < |s.started| && s.started[f].key == key && s.started[f].settled == Some(Error(error))
      && until == s.started[f].at + errorTtlMs && s.started[f].at <= s.now;
    assert s'.started[f] == s.started[f];
  }

  lemma AnswersLast(s: State, s': State, c: Call, errorTtlMs: nat)
    requires Answered(s, c, errorTtlMs) && Extends(s, s')
    ensures Answered(s', c, errorTtlMs)
  {
    match c.answer {
      case Joins(f) => assert s'.started[f].key == s.started[f].key;
      case Rethrows(error) =>
        var until :| until > c.at && KeptError(s, c.key, error, until, errorTtlMs);
        KeptErrorLasts(s, s', c.key, error, until, errorTtlMs);
    }
  }

  lemma StepExtends(s: State, e: Event, errorTtlMs: nat)
    requires Enabled(s, e)
    ensures Extends(s, Step(s, e, errorTtlMs))
  {
  }

  lemma HistoryLasts(s: State, s': State, errorTtlMs: nat)
    requires Inv(s, errorTtlMs) && Extends(s, s')
    ensures forall k :: k in s.errors ==> KeptError(s', k, s.errors[k].error, s.errors[k].until, errorTtlMs)
    ensures forall i :: 0 <= i < |s.calls| ==> Answered(s', s.calls[i], errorTtlMs)
  {
    forall k | k in s.errors ensures KeptError(s', k, s.errors[k].error, s.errors[k].until, errorTtlMs) {
      KeptErrorLasts(s, s', k, s.errors[k].error, s.errors[k].until, errorTtlMs);
    }
    forall i | 0 <= i < |s.calls| ensures Answered(s', s.calls[i], errorTtlMs) {
      AnswersLast(s, s', s.calls[i], errorTtlMs);
    }
  }

  lemma NewCallIsAnswered(s: State, key: string, errorTtlMs: nat)
    requires Inv(s, errorTtlMs)
    ensures var s' := DoStep(s, key);
      |s'.calls| == |s.calls| + 1 && s'.calls[..|s.calls|] == s.calls && Answered(s', s'.calls[|s.calls|], errorTtlMs)
  {
    var s' := DoStep(s, key);
    if key in s.errors && s.errors[key].until > s.now {
      StepExtends(s, Do(key), errorTtlMs);
      KeptErrorLasts(s, s', key, s.errors[key].error, s.errors[key].until, errorTtlMs);
    }
  }

  lemma DoKeepsFlights(s: State, key: string)
    requires FlightsRun(s)
    ensures FlightsRun(DoStep(s, key))
  {
    var s' := DoStep(s, key);
    forall f | Running(s', f) ensures s'.started[f].key in s'.flights && s'.flights[s'.started[f].key] == f {
      if f < |s.started| { assert Running(s, f); }
    }
  }

  lemma DoKeepsInv(s: State, key: string, errorTtlMs: nat)
    requires Inv(s, errorTtlMs)
    ensures Inv(DoStep(s, key), errorTtlMs)
  {
    var s' := DoStep(s, key);
    StepExtends(s, Do(key), errorTtlMs);
    DoKeepsFlights(s, key);
    HistoryLasts(s, s', errorTtlMs);
    NewCallIsAnswered(s, key, errorTtlMs);
    forall i | 0 <= i < |s'.calls| ensures Answered(s', s'.calls[i], errorTtlMs) {
      assert i < |s.calls| ==> s'.calls[..|s.calls|][i] == s'.calls[i];
    }
  }

  lemma SettleKeepsInv(s: State, flight: nat, outcome: Outcome, errorTtlMs: nat)
    requires Inv(s, errorTtlMs) && Running(s, flight)
    ensures Inv(SettleStep(s, flight, outcome, errorTtlMs), errorTtlMs)
  {
    var s' := SettleStep(s, flight, outcome, errorTtlMs);
    StepExtends(s, Settles(flight, outcome), errorTtlMs);
    var key := s.started[flight].key;
    assert s.flights[key] == flight;
    HistoryLasts(s, s', errorTtlMs);
    assert s'.started[flight].settled == Some(outcome);
    forall f | Running(s', f) ensures s'.started[f].key in s'.flights && s'.flights[s'.started[f].key] == f {
      assert Running(s, f);
    }
  }

  lemma StepKeepsInv(s: State, e: Event, errorTtlMs: nat)
    requires Inv(s, errorTtlMs) && Enabled(s, e)
    ensures Inv(Step(s, e, errorTtlMs), errorTtlMs)
  {
    match e {
      case Do(key) => DoKeepsInv(s, key, errorTtlMs);
      case Settles(flight, outcome) => SettleKeepsInv(s, flight, outcome, errorTtlMs);
      case Wait(ms) =>
        var s' := Step(s, e, errorTtlMs);
        HistoryLasts(s, s', errorTtlMs);
        forall f | Running(s', f) ensures s'.started[f].key in s'.flights && s'.flights[s'.started[f].key] == f {
          assert Running(s, f);
        }
    }
  }

  lemma {:induction false} RunKeepsInv(s: State, events: seq<Event>, errorTtlMs: nat)
    requires Inv(s, errorTtlMs) && Legal(s, events, errorTtlMs)
    ensures Inv(Run(s, events, errorTtlMs), errorTtlMs)
    decreases |events|
  {
    if events != [] {
      StepKeepsInv(s, events[0], errorTtlMs);
      RunKeepsInv(Step(s, events[0], errorTtlMs), events[1..], errorTtlMs);
    }
  }

  // In every reachable state each key has at most one running execution and `flights` holds exactly
  // the running ones; a caller shares the execution that runs for its key; and an error is thrown again
  // only for a key whose execution failed with it less than `errorTtlMs` before, so never when that is 0.
  lemma OneExecutionPerKey(events: seq<Event>, errorTtlMs: nat)
    requires Legal(START, events, errorTtlMs)
    ensures var s := Run(START, events, errorTtlMs);
      && (forall f, f' :: Running(s, f) && Running(s, f') && s.started[f].key == s.started[f'].key ==> f == f')
      && (forall key :: key in s.flights <==> exists f :: Running(s, f) && s.started[f].key == key)
      && (forall i :: 0 <= i < |s.calls| ==> Answered(s, s.calls[i], errorTtlMs))
  {
    RunKeepsInv(START, events, errorTtlMs);
  }

  // A call made while an execution runs for its key, with no error kept, joins that execution.
  lemma CallersShare(s: State, f: int, errorTtlMs: nat)
    requires Inv(s, errorTtlMs) && Running(s, f)
    requires var key := s.started[f].key; !(key in s.errors && s.errors[key].until > s.now)
    ensures var s' := DoStep(s, s.started[f].key);
      s'.started == s.started && s'.calls == s.calls + [Call(s.started[f].key, s.now, Joins(f))]
  {
  }

  // With a lifetime of zero no error is ever thrown again.
  lemma NothingRethrownAtZero(events: seq<Event>)
    requires Legal(START, events, 0)
    ensures var s := Run(START, events, 0); forall key :: key in s.errors ==> s.errors[key].until <= s.now
  {
    RunKeepsInv(START, events, 0);
  }

  // ---------------------------------------------------------------------
  // What a call is given, from the history of executions alone
  // ---------------------------------------------------------------------

  // Execution `f` failed, and no later one of its key has settled.
  ghost predicate LastFailed(s: State, f: int) {
    && 0 <= f < |s.started| && s.started[f].settled.Some? && s.started[f].settled.value.Error?
    && forall g :: f < g < |s.started| && s.started[g].key == s.started[f].key ==> s.started[g].settled.None?
  }

  // An execution starts only when all earlier ones of its key have settled.
  ghost predicate InTurn(s: State) {
    forall f, g :: 0 <= f < g < |s.started| && s.started[f].key == s.started[g].key ==> s.started[f].settled.Some?
  }

  // The error kept for a key is that of its last settled execution.
  ghost predicate KeepsLastFailure(s: State, errorTtlMs: nat) {
    && (forall key :: key in s.errors ==> exists f :: LastFailed(s, f) && s.started[f].key == key)
    && (forall f :: LastFailed(s, f) ==> IsKept(s, s.started[f], errorTtlMs))
  }

  predicate IsKept(s: State, f: Flight, errorTtlMs: nat)
    requires f.settled.Some?
  {
    f.key in s.errors && s.errors[f.key] == CachedError(f.settled.value.text, f.at + errorTtlMs)
  }

  lemma CallStaysInTurn(s: State, key: string)
    requires FlightsRun(s) && InTurn(s)
    ensures InTurn(DoStep(s, key))
  {
    assert forall f :: 0 <= f < |s.started| && s.started[f].settled.None? ==> Running(s, f);
  }

  // Where no execution settles, the last failures stay.
  lemma LastFailuresStay(s: State, s': State, errorTtlMs: nat)
    requires |s.started| <= |s'.started| && s'.errors == s.errors
    requires forall f :: 0 <= f < |s.started| ==> s'.started[f] == s.started[f]
    requires forall g :: |s.started| <= g < |s'.started| ==> s'.started[g].settled.None?
    requires KeepsLastFailure(s, errorTtlMs)
    ensures KeepsLastFailure(s', errorTtlMs)
  {
    forall key | key in s'.errors ensures exists f :: LastFailed(s', f) && s'.started[f].key == key {
      var f :| LastFailed(s, f) && s.started[f].key == key;
      assert LastFailed(s', f);
    }
    forall f | LastFailed(s', f) ensures IsKept(s', s'.started[f], errorTtlMs) {
      assert forall g :: f < g < |s.started| ==> s'.started[g] == s.started[g];
      assert LastFailed(s, f);
    }
  }

  lemma SettlingKeepsLastFailure(s: State, flight: nat, outcome: Outcome, errorTtlMs: nat)
    requires InTurn(s) && KeepsLastFailure(s, errorTtlMs) && Running(s, flight)
    ensures KeepsLastFailure(SettleStep(s, flight, outcome, errorTtlMs), errorTtlMs)
  {
    var s', key := SettleStep(s, flight, outcome, errorTtlMs), s.started[flight].key;
    forall k | k in s'.errors ensures exists f :: LastFailed(s', f) && s'.started[f].key == k {
      if k == key {
        assert LastFailed(s', flight);
      } else {
        var f :| LastFailed(s, f) && s.started[f].key == k;
        OtherFailureStays(s, s', flight, f);
      }
    }
    forall f | LastFailed(s', f) ensures IsKept(s', s'.started[f], errorTtlMs) {
      FailureAfterSettling(s, flight, outcome, errorTtlMs, f);
    }
  }

  lemma FailureAfterSettling(s: State, flight: nat, outcome: Outcome, errorTtlMs: nat, f: nat)
    requires KeepsLastFailure(s, errorTtlMs) && Running(s, flight)
    requires LastFailed(SettleStep(s, flight, outcome, errorTtlMs), f) && InTurn(s)
    ensures var s' := SettleStep(s, flight, outcome, errorTtlMs); IsKept(s', s'.started[f], errorTtlMs)
  {
    var s' := SettleStep(s, flight, outcome, errorTtlMs);
    if s'.started[f].key == s.started[flight].key {
      assert s'.started[flight].settled.Some?;
    } else {
      OtherFailureStays(s, s', flight, f);
    }
  }

  lemma OtherFailureStays(s: State, s': State, flight: nat, f: nat)
    requires |s'.started| == |s.started| && flight < |s.started| && f < |s.started|
    requires s'.started[flight].key == s.started[flight].key != s.started[f].key
    requires forall g :: 0 <= g < |s.started| && g != flight ==> s'.started[g] == s.started[g]
    ensures LastFailed(s', f) <==> LastFailed(s, f)
  {
  }

  lemma StepKeepsLastFailure(s: State, e: Event, errorTtlMs: nat)
    requires FlightsRun(s) && InTurn(s) && KeepsLastFailure(s, errorTtlMs) && Enabled(s, e)
    ensures InTurn(Step(s, e, errorTtlMs)) && KeepsLastFailure(Step(s, e, errorTtlMs), errorTtlMs)
  {
    match e {
      case Do(key) =>
        CallStaysInTurn(s, key);
        LastFailuresStay(s, DoStep(s, key), errorTtlMs);
      case Settles(flight, outcome) => SettlingKeepsLastFailure(s, flight, outcome, errorTtlMs);
      case Wait(_) => LastFailuresStay(s, Step(s, e, errorTtlMs), errorTtlMs);
    }
  }

  lemma {:induction false} RunKeepsLastFailure(s: State, events: seq<Event>, errorTtlMs: nat)
    requires Inv(s, errorTtlMs) && InTurn(s) && KeepsLastFailure(s, errorTtlMs) && Legal(s, events, errorTtlMs)
    ensures KeepsLastFailure(Run(s, events, errorTtlMs), errorTtlMs)
    decreases |events|
  {
    if events != [] {
      StepKeepsInv(s, events[0], errorTtlMs);
      StepKeepsLastFailure(s, events[0], errorTtlMs);
      RunKeepsLastFailure(Step(s, events[0], errorTtlMs), events[1..], errorTtlMs);
    }
  }

  // The last settled execution of the key failed less than `errorTtlMs` ago, with `error`.
  ghost predicate FailedLately(s: State, key: string, error: string, errorTtlMs: nat) {
    exists f :: LastFailed(s, f) && s.started[f].key == key && s.started[f].settled == Some(Error(error))
      && s.now < s.started[f].at + errorTtlMs
  }

  lemma RethrowsExactly(s: State, key: string, errorTtlMs: nat)
    requires KeepsLastFailure(s, errorTtlMs)
    ensures key in s.errors && s.errors[key].until > s.now ==> FailedLately(s, key, s.errors[key].error, errorTtlMs)
    ensures !(key in s.errors && s.errors[key].until > s.now) ==>
      forall error :: !FailedLately(s, key, error, errorTtlMs)
  {
    if key in s.errors {
      var f :| LastFailed(s, f) && s.started[f].key == key;
      assert IsKept(s, s.started[f], errorTtlMs);
    }
  }

  // In every reachable state, a call is thrown an error exactly when the last settled execution of its key
  // failed with it less than `errorTtlMs` ago. Any other call joins the execution running for its key, and
  // starts one exactly when none is.
  lemma CallsAreDecided(events: seq<Event>, key: string, errorTtlMs: nat)
    requires Legal(START, events, errorTtlMs)
    ensures var s := Run(START, events, errorTtlMs);
      var s' := Step(s, Do(key), errorTtlMs);
      && |s'.calls| == |s.calls| + 1
      && match s'.calls[|s.calls|].answer
         case Rethrows(error) => FailedLately(s, key, error, errorTtlMs) && s'.started == s.started
         case Joins(flight) =>
           && (forall error :: !FailedLately(s, key, error, errorTtlMs))
           && if exists f :: Running(s, f) && s.started[f].key == key then
                Running(s, flight) && s.started[flight].key == key && s'.started == s.started
              else
                flight == |s.started| && s'.started == s.started + [Flight(key, None, 0)]
  {
    RunKeepsInv(START, events, errorTtlMs);
    RunKeepsLastFailure(START, events, errorTtlMs);
    RethrowsExactly(Run(START, events, errorTtlMs), key, errorTtlMs);
  }

  // An execution settles with its outcome at that time, and no other changes.
  lemma SettlesExactly(s: State, flight: nat, outcome: Outcome, errorTtlMs: nat)
    requires Enabled(s, Settles(flight, outcome))
    ensures var s' := Step(s, Settles(flight, outcome), errorTtlMs);
      && |s'.started| == |s.started| && s'.calls == s.calls && s'.now == s.now
      && (forall f :: 0 <= f < |s.started| && f != flight ==> s'.started[f] == s.started[f])
      && s'.started[flight].key == s.started[flight].key
      && s'.started[flight].settled == Some(outcome) && s'.started[flight].at == s.now
  {
  }

  class Singleflight {
    const errorTtlMs: nat
    var flights: map<string, nat>
    var errors: map<string, CachedError>
    // History of executions and calls, and the clock.
    var started: seq<Flight>
    var calls: seq<Call>
    var now: int

    function Value(): State
      reads this
    {
      State(flights, errors, started, calls, now)
    }

    constructor (errorTtlMs: nat)
      ensures Value() == START && this.errorTtlMs == errorTtlMs
    {
      this.errorTtlMs := errorTtlMs;
      flights, errors, started, calls, now := map[], map[], [], [], 0;
    }

    // A call to the cache of executions: throws a kept error, joins a flight or starts one.
    method Perform(key: string) returns (answer: Answer)
      modifies this
      ensures Value() == Step(old(Value()), Do(key), errorTtlMs)
      ensures calls == old(calls) + [Call(key, now, answer)]
    {
      if key in errors && errors[key].until > now {
        answer := Rethrows(errors[key].error);
      } else if key in flights {
        answer := Joins(flights[key]);
      } else {
        answer := Joins(|started|);
        flights := flights[key := |started|];
        started := started + [Flight(key, None, 0)];
      }
      calls := calls + [Call(key, now, answer)];
    }

    // The function of a flight has returned or thrown.
    method OnSettled(flight: nat, outcome: Outcome)
      requires Enabled(Value(), Settles(flight, outcome))
      modifies this
      ensures Value() == Step(old(Value()), Settles(flight, outcome), errorTtlMs)
    {
      var key := started[flight].key;
      match outcome {
        case Value(_) => errors := errors - {key};
        case Error(error) => errors := errors[key := CachedError(error, now + errorTtlMs)];
      }
      flights := flights - {key};
      started := started[flight := Flight(key, Some(outcome), now)];
    }
  }
}
