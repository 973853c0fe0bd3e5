// The status of workflow runs in the in-process provider, under every interleaving of steps, error
// handler, final handler, timeout and cleanup, while the provider is not stopped.
module WorkflowFlows {
  import opened Options

  datatype Status = Running | Completed | Failed

  datatype Promise = Unsettled | Resolved(result: string) | Rejected(error: string)

  // Where the execution of a run is. It escapes when the error handler throws.
  datatype Phase = InSteps | InOnError(error: string) | InHandler | Ended | Escaped

  // One run with its flow state; `timer` tells whether its timeout is armed.
  datatype Flow = Flow(id: string, status: Status, promise: Promise, timer: bool, phase: Phase)

  // `flows` lists all runs ever started; `flowStates` refers to them by flow id.
  datatype Table = Table(flows: seq<Flow>, flowStates: map<string, nat>, cleanupTimeouts: set<string>)

  datatype Event =
    | Execute(id: string, withTimeout: bool)
    | StepsFail(r: nat, error: string, hasOnError: bool)
    | StepsSucceed(r: nat)
    | OnErrorReturns(r: nat)
    | OnErrorThrows(r: nat, error: string)
    | HandlerReturns(r: nat, result: string)
    | HandlerThrows(r: nat, error: string)
    | TimeoutFires(r: nat)
    | CleanupFires(id: string)

  // A promise settles once; settling it clears the timeout.
  function Settle(f: Flow, p: Promise): Flow {
    if f.promise.Unsettled? then f.(promise := p, timer := false) else f
  }

  function Fail(f: Flow, error: string): Flow { Settle(f.(status := Failed), Rejected(error)) }

  predicate Active(f: Flow) { f.phase.InSteps? || f.phase.InOnError? || f.phase.InHandler? }

  predicate Enabled(t: Table, e: Event) {
    match e
    case Execute(_, _) => true
    case StepsFail(r, _, _) => r < |t.flows| && t.flows[r].phase.InSteps?
    case StepsSucceed(r) => r < |t.flows| && t.flows[r].phase.InSteps?
    case OnErrorReturns(r) => r < |t.flows| && t.flows[r].phase.InOnError?
    case OnErrorThrows(r, _) => r < |t.flows| && t.flows[r].phase.InOnError?
    case HandlerReturns(r, _) => r < |t.flows| && t.flows[r].phase.InHandler?
    case HandlerThrows(r, _) => r < |t.flows| && t.flows[r].phase.InHandler?
    case TimeoutFires(r) => r < |t.flows| && t.flows[r].timer
    case CleanupFires(id) => id in t.cleanupTimeouts
  }

  // What an event does to the flow of its run.
  function Next(f: Flow, e: Event): Flow {
    match e
    case StepsFail(_, error, hasOnError) =>
      if hasOnError then f.(phase := InOnError(error)) else Fail(f, error).(phase := Ended)
    case StepsSucceed(_) => f.(phase := InHandler)
    case OnErrorReturns(_) => if f.phase.InOnError? then Fail(f, f.phase.error).(phase := Ended) else f
    case OnErrorThrows(_, error) => Settle(f, Rejected(error)).(phase := Escaped)
    case HandlerReturns(_, result) =>
      if f.status.Failed? then f.(phase := Ended)
      else Settle(f.(status := Completed), Resolved(result)).(phase := Ended)
    case HandlerThrows(_, error) => Fail(f, error).(phase := Ended)
    case TimeoutFires(_) => if f.status.Running? then Fail(f.(timer := false), "timed out") else f.(timer := false)
    case _ => f
  }

  function Step(t: Table, e: Event): Table
    requires Enabled(t, e)
  {
    match e
    case Execute(id, withTimeout) =>
      if id in t.flowStates then t
      else
        t.(flows := t.flows + [Flow(id, Running, Unsettled, withTimeout, InSteps)],
           flowStates := t.flowStates[id := |t.flows|])
    case CleanupFires(id) => t.(flowStates := t.flowStates - {id}, cleanupTimeouts := t.cleanupTimeouts - {id})
    case _ =>
      var f := Next(t.flows[e.r], e);
      t.(flows := t.flows[e.r := f],
         cleanupTimeouts := if f.phase.Ended? && !t.flows[e.r].phase.Ended?
                            then t.cleanupTimeouts + {f.id} else t.cleanupTimeouts)
  }

  // Status, promise, timer and phase of a single run fit together.
  predicate Coherent(f: Flow) {
    && (f.promise.Resolved? <==> f.status.Completed?)
    && (f.status.Failed? ==> f.promise.Rejected?)
    && (f.promise.Rejected? && !f.status.Failed? ==> f.phase.Escaped?)
    && (f.promise.Unsettled? ==> Active(f))
    && (f.timer ==> f.promise.Unsettled?)
    && (f.status.Completed? ==> f.phase.Ended?)
  }

  // A run that may still act, or that escaped, owns its flow id; cleanup is due for exactly the ended runs
  // that still hold theirs.
  ghost predicate Inv(t: Table) {
    && (forall r :: 0 <= r < |t.flows| ==> Coherent(t.flows[r]))
    && (forall r :: 0 <= r < |t.flows| && !t.flows[r].phase.Ended? ==> Owns(t, r))
    && (forall id :: id in t.flowStates ==> t.flowStates[id] < |t.flows| && t.flows[t.flowStates[id]].id == id)
    && (forall id :: id in t.cleanupTimeouts <==> id in t.flowStates && t.flows[t.flowStates[id]].phase.Ended?)
  }

  predicate Owns(t: Table, r: nat)
    requires r < |t.flows|
  {
    t.flows[r].id in t.flowStates && t.flowStates[t.flows[r].id] == r
  }

  lemma NextIsCoherent(t: Table, e: Event)
    requires Enabled(t, e) && !e.Execute? && !e.CleanupFires? && Coherent(t.flows[e.r])
    ensures Coherent(Next(t.flows[e.r], e)) && Next(t.flows[e.r], e).id == t.flows[e.r].id
    ensures t.flows[e.r].phase.Ended? ==> Next(t.flows[e.r], e).phase.Ended?
  {
  }

  // An event of one run changes that run's flow alone.
  lemma AdvanceKeepsInv(t: Table, e: Event)
    requires Inv(t) && Enabled(t, e) && !e.Execute? && !e.CleanupFires?
    ensures Inv(Step(t, e))
  {
    NextIsCoherent(t, e);
    var t' := Step(t, e);
    assert forall r :: 0 <= r < |t'.flows| && r != e.r ==> t'.flows[r] == t.flows[r];
    forall r | 0 <= r < |t'.flows| && !t'.flows[r].phase.Ended? ensures Owns(t', r) {
      assert Owns(t, r);
    }
    if !t.flows[e.r].phase.Ended? { assert Owns(t, e.r); }
  }

  lemma StepKeepsInv(t: Table, e: Event)
    requires Inv(t) && Enabled(t, e)
    ensures Inv(Step(t, e))
  {
    if e.Execute? || e.CleanupFires? {
      var t' := Step(t, e);
      forall r | 0 <= r < |t'.flows| && !t'.flows[r].phase.Ended? ensures Owns(t', r) {
        if r < |t.flows| { assert Owns(t, r); }
      }
    } else {
      AdvanceKeepsInv(t, e);
    }
  }

  predicate Legal(t: Table, events: seq<Event>)
    decreases |events|
  {
    events == [] || (Enabled(t, events[0]) && Legal(Step(t, events[0]), events[1..]))
  }

  function Run(t: Table, events: seq<Event>): Table
    requires Legal(t, events)
    decreases |events|
  {
    if events == [] then t else Run(Step(t, events[0]), events[1..])
  }

  const EMPTY := Table([], map[], {})

  // Completed and failed are absorbing, a settled promise never changes, and runs are never forgotten.
  ghost predicate Kept(f: Flow, f': Flow) {
    && f'.id == f.id
    && (f.status.Completed? ==> f' == f)
    && (f.status.Failed? ==> f'.status.Failed?)
    && (!f.promise.Unsettled? ==> f'.promise == f.promise && !f'.timer)
    && (f.phase.Ended? ==> f'.phase.Ended?)
    && (f.phase.Escaped? ==> f' == f)
  }

  ghost predicate AllKept(t: Table, t': Table) {
    |t.flows| <= |t'.flows| && forall r :: 0 <= r < |t.flows| ==> Kept(t.flows[r], t'.flows[r])
  }

  lemma StepKeepsFlows(t: Table, e: Event)
    requires Inv(t) && Enabled(t, e)
    ensures AllKept(t, Step(t, e))
  {
    if !e.Execute? && !e.CleanupFires? { assert Coherent(t.flows[e.r]); }
  }

  lemma {:induction false} RunsAreSound(t: Table, events: seq<Event>)
    requires Inv(t) && Legal(t, events)
    ensures Inv(Run(t, events)) && AllKept(t, Run(t, events))
    decreases |events|
  {
    if events != [] {
      StepKeepsInv(t, events[0]);
      StepKeepsFlows(t, events[0]);
      RunsAreSound(Step(t, events[0]), events[1..]);
      var mid, end := Step(t, events[0]), Run(t, events);
      forall r | 0 <= r < |t.flows| ensures Kept(t.flows[r], end.flows[r]) {
        assert Kept(t.flows[r], mid.flows[r]) && Kept(mid.flows[r], end.flows[r]);
      }
    }
  }

  // ---------------------------------------------------------------------
  // What the events of a run make of it
  // ---------------------------------------------------------------------

  // A known flow id starts nothing; a new one starts a running flow, with a timer if a timeout is set.
  // Cleanup frees the flow id.
  lemma StartsExactly(t: Table, id: string, withTimeout: bool)
    requires Inv(t)
    ensures id in t.flowStates ==> Step(t, Execute(id, withTimeout)) == t
    ensures id !in t.flowStates ==>
      var t' := Step(t, Execute(id, withTimeout));
      && t'.flows == t.flows + [Flow(id, Running, Unsettled, withTimeout, InSteps)]
      && t'.flowStates == t.flowStates[id := |t.flows|] && t'.cleanupTimeouts == t.cleanupTimeouts
    ensures id in t.cleanupTimeouts ==>
      var t' := Step(t, CleanupFires(id));
      t'.flows == t.flows && t'.flowStates.Keys == t.flowStates.Keys - {id} && id !in t'.cleanupTimeouts
  {
  }

  // Each event moves its own run alone, whose timer runs on while its promise is open.
  lemma MovesExactly(t: Table, e: Event)
    requires Inv(t) && Enabled(t, e) && !e.Execute? && !e.CleanupFires?
    ensures var t' := Step(t, e);
      && |t'.flows| == |t.flows| && t'.flowStates == t.flowStates
      && (forall r :: 0 <= r < |t.flows| && r != e.r ==> t'.flows[r] == t.flows[r])
      && var f, f' := t.flows[e.r], t'.flows[e.r];
         && f'.id == f.id && (f'.timer <==> f.timer && f'.promise.Unsettled?)
         && (e.StepsSucceed? ==> f' == f.(phase := InHandler))
         && (e.StepsFail? && e.hasOnError ==> f' == f.(phase := InOnError(e.error)))
         && (e.TimeoutFires? ==> f'.phase == f.phase)
         && (e.OnErrorThrows? ==> f'.phase == Escaped && f'.status == f.status)
         && (e.OnErrorReturns? || e.HandlerReturns? || e.HandlerThrows? || (e.StepsFail? && !e.hasOnError) ==>
              f'.phase == Ended && f.id in t'.cleanupTimeouts)
  {
    var f := t.flows[e.r];
    assert Coherent(f);
    if !f.phase.Ended? { assert Owns(t, e.r); }
  }

  predicate Concerns(e: Event, r: nat) { !e.Execute? && !e.CleanupFires? && e.r == r }

  // A run that has ended or escaped is never heard of again.
  lemma {:induction false} InactiveIsSilent(t: Table, events: seq<Event>, r: nat)
    requires Inv(t) && Legal(t, events) && r < |t.flows| && !Active(t.flows[r])
    ensures forall e :: e in events ==> !Concerns(e, r)
    decreases |events|
  {
    if events != [] {
      assert Coherent(t.flows[r]);
      StepKeepsInv(t, events[0]);
      InactiveIsSilent(Step(t, events[0]), events[1..], r);
    }
  }

  // The ways in which run `r` fails with an error; `awaiting` is the error its error handler already runs for.
  predicate FailsWith(events: seq<Event>, r: nat, awaiting: Option<string>, error: string) {
    || StepsFail(r, error, false) in events
    || (OnErrorReturns(r) in events && (awaiting == Some(error) || StepsFail(r, error, true) in events))
    || OnErrorThrows(r, error) in events
    || HandlerThrows(r, error) in events
  }

  ghost predicate Decided(f: Flow, events: seq<Event>, r: nat, awaiting: Option<string>) {
    && (TimeoutFires(r) in events ==> f.status.Failed? && f.promise == Rejected("timed out"))
    && (TimeoutFires(r) !in events ==>
          && (forall v :: f.promise == Resolved(v) <==> HandlerReturns(r, v) in events)
          && (forall e :: f.promise == Rejected(e) <==> FailsWith(events, r, awaiting, e))
          && (f.status.Completed? <==> exists v :: HandlerReturns(r, v) in events)
          && (f.status.Failed? <==> f.promise.Rejected? && forall e :: OnErrorThrows(r, e) !in events))
  }

  function Awaiting(f: Flow): Option<string> { if f.phase.InOnError? then Some(f.phase.error) else None }

  // An event that settles its run decides it, as no event of the run but those after a timeout follows.
  lemma SettlingDecides(t: Table, e: Event, rest: seq<Event>, r: nat, f': Flow)
    requires Enabled(t, e) && Concerns(e, r) && Coherent(t.flows[r]) && t.flows[r].promise.Unsettled?
    requires var f1 := Step(t, e).flows[r];
      !f1.promise.Unsettled? && f'.promise == f1.promise && (f'.status == f1.status || f1.status.Running?)
    requires !e.TimeoutFires? ==> f'.status == Step(t, e).flows[r].status && forall x :: x in rest ==> !Concerns(x, r)
    ensures Decided(f', [e] + rest, r, Awaiting(t.flows[r]))
  {
    var events := [e] + rest;
    assert e == events[0];
    if !e.TimeoutFires? {
      assert forall x :: x in events && Concerns(x, r) ==> x == e;
    }
  }

  // An event that leaves its run open decides nothing but the error that its error handler runs for.
  lemma OpenDecidesLater(f': Flow, e: Event, rest: seq<Event>, r: nat, awaiting: Option<string>)
    requires !Concerns(e, r) || e.StepsSucceed? || (e.StepsFail? && e.hasOnError && awaiting.None?)
    requires Decided(f', rest, r, if Concerns(e, r) && e.StepsFail? then Some(e.error) else awaiting)
    requires Concerns(e, r) && e.StepsFail? ==> forall error :: StepsFail(r, error, true) !in rest
    ensures Decided(f', [e] + rest, r, awaiting)
  {
    var events := [e] + rest;
    assert e == events[0] && forall x :: x in events <==> x == e || x in rest;
  }

  // The steps of a run fail once.
  lemma {:induction false} StepsEndOnce(t: Table, events: seq<Event>, r: nat)
    requires Inv(t) && Legal(t, events) && r < |t.flows| && !t.flows[r].phase.InSteps?
    ensures forall error, hasOnError :: StepsFail(r, error, hasOnError) !in events
    decreases |events|
  {
    if events != [] {
      StepKeepsInv(t, events[0]);
      StepsEndOnce(Step(t, events[0]), events[1..], r);
    }
  }

  // A run that its first event settles.
  lemma SettledIsDecided(t: Table, events: seq<Event>, r: nat)
    requires Inv(t) && Legal(t, events) && r < |t.flows| && t.flows[r].promise.Unsettled?
    requires events != [] && !Step(t, events[0]).flows[r].promise.Unsettled?
    ensures var t' := Run(t, events);
      r < |t'.flows| && Decided(t'.flows[r], events, r, Awaiting(t.flows[r]))
  {
    var e, t1 := events[0], Step(t, events[0]);
    assert Coherent(t.flows[r]);
    StepKeepsInv(t, e);
    RunsAreSound(t1, events[1..]);
    assert Kept(t1.flows[r], Run(t, events).flows[r]) && Coherent(t1.flows[r]) && Coherent(Run(t, events).flows[r]);
    if e != TimeoutFires(r) { InactiveIsSilent(t1, events[1..], r); }
    SettlingDecides(t, e, events[1..], r, Run(t, events).flows[r]);
    assert [e] + events[1..] == events;
  }

  lemma OpenEvents(t: Table, e: Event, r: nat)
    requires Inv(t) && Enabled(t, e) && r < |t.flows| && t.flows[r].promise.Unsettled?
    requires Step(t, e).flows[r].promise.Unsettled?
    ensures !Concerns(e, r) || e.StepsSucceed? || (e.StepsFail? && e.hasOnError && Awaiting(t.flows[r]).None?)
    ensures Awaiting(Step(t, e).flows[r]) ==
      if Concerns(e, r) && e.StepsFail? then Some(e.error) else Awaiting(t.flows[r])
    ensures Concerns(e, r) ==> !Step(t, e).flows[r].phase.InSteps?
  {
    assert Coherent(t.flows[r]);
  }

  lemma {:induction false} UnsettledIsDecided(t: Table, events: seq<Event>, r: nat)
    requires Inv(t) && Legal(t, events) && r < |Run(t, events).flows|
    requires r < |t.flows| ==> t.flows[r].promise.Unsettled?
    ensures Decided(Run(t, events).flows[r], events, r, if r < |t.flows| then Awaiting(t.flows[r]) else None)
    decreases |events|
  {
    if events == [] {
      assert Coherent(t.flows[r]);
    } else {
      var e, t1 := events[0], Step(t, events[0]);
      StepKeepsInv(t, e);
      if r < |t.flows| && !t1.flows[r].promise.Unsettled? {
        SettledIsDecided(t, events, r);
      } else {
        UnsettledIsDecided(t1, events[1..], r);
        if r < |t.flows| {
          OpenEvents(t, e, r);
          if Concerns(e, r) { StepsEndOnce(t1, events[1..], r); }
        }
        OpenDecidesLater(Run(t, events).flows[r], e, events[1..], r,
                         if r < |t.flows| then Awaiting(t.flows[r]) else None);
        assert [e] + events[1..] == events;
      }
    }
  }

  // A run that times out is failed and rejected with the timeout. Any other is resolved with a value, and
  // completed, exactly when its handler returned that value; and rejected with an error exactly when a step
  // failed with it and the error handler, if any, returned, or the error handler or the handler threw it. It
  // has then failed, unless the error handler threw.
  lemma RunsAreDecided(events: seq<Event>, r: nat)
    requires Legal(EMPTY, events) && r < |Run(EMPTY, events).flows|
    ensures var f := Run(EMPTY, events).flows[r];
      && (TimeoutFires(r) in events ==> f.status.Failed? && f.promise == Rejected("timed out"))
      && (TimeoutFires(r) !in events ==>
            && (forall v :: f.promise == Resolved(v) <==> HandlerReturns(r, v) in events)
            && (forall e :: f.promise == Rejected(e) <==>
                  || StepsFail(r, e, false) in events
                  || (OnErrorReturns(r) in events && StepsFail(r, e, true) in events)
                  || OnErrorThrows(r, e) in events
                  || HandlerThrows(r, e) in events)
            && (f.status.Completed? <==> exists v :: HandlerReturns(r, v) in events)
            && (f.status.Failed? <==> f.promise.Rejected? && forall e :: OnErrorThrows(r, e) !in events))
  {
    UnsettledIsDecided(EMPTY, events, r);
    var f := Run(EMPTY, events).flows[r];
    forall e ensures FailsWith(events, r, None, e) <==>
      || StepsFail(r, e, false) in events
      || (OnErrorReturns(r) in events && StepsFail(r, e, true) in events)
      || OnErrorThrows(r, e) in events
      || HandlerThrows(r, e) in events {}
  }

  // In every reachable state: a run is resolved exactly when completed; it is rejected without having
  // failed exactly when its error handler threw before any timeout; cleanup is due for exactly the ended
  // runs that hold their flow id; and no two unfinished runs share a flow id.
  lemma ReachableFlows(events: seq<Event>)
    requires Legal(EMPTY, events)
    ensures var t := Run(EMPTY, events);
      && (forall r :: 0 <= r < |t.flows| ==>
            var f := t.flows[r];
            && (f.promise.Resolved? <==> f.status.Completed?)
            && (f.promise.Rejected? && !f.status.Failed? <==> f.phase.Escaped? && f.status.Running?)
            && (Owns(t, r) ==> (f.id in t.cleanupTimeouts <==> f.phase.Ended?))
            && (Active(f) ==> Owns(t, r)))
      && (forall r, r' :: 0 <= r < r' < |t.flows| && Active(t.flows[r]) && Active(t.flows[r']) ==>
           t.flows[r].id != t.flows[r'].id)
  {
    RunsAreSound(EMPTY, events);
    var t := Run(EMPTY, events);
    forall r | 0 <= r < |t.flows| && Active(t.flows[r]) ensures Owns(t, r) {}
    forall r | 0 <= r < |t.flows| ensures Coherent(t.flows[r]) {}
  }

  // A run whose error handler throws before a timeout stays running and rejected for good, and its
  // flow id can never be used for another run.
  lemma {:induction false} EscapedFlowIsStuck(t: Table, r: nat, events: seq<Event>)
    requires Inv(t) && Legal(t, events) && r < |t.flows| && t.flows[r].phase.Escaped?
    ensures var t' := Run(t, events); r < |t'.flows| && t'.flows[r] == t.flows[r] && Owns(t', r)
  {
    RunsAreSound(t, events);
    assert Kept(t.flows[r], Run(t, events).flows[r]);
  }

  // A step fails, the error handler throws, and no timeout is armed: the run is rejected and running.
  lemma ThrowingErrorHandlerEscapes()
    ensures var events := [Execute("a", false), StepsFail(0, "x", true), OnErrorThrows(0, "y")];
      Legal(EMPTY, events) && Run(EMPTY, events).flows == [Flow("a", Running, Rejected("y"), false, Escaped)]
  {
    var e, f, g := Execute("a", false), StepsFail(0, "x", true), OnErrorThrows(0, "y");
    var t1 := Step(EMPTY, e);
    assert t1.flows == [Flow("a", Running, Unsettled, false, InSteps)];
    var t2 := Step(t1, f);
    assert t2.flows == [Flow("a", Running, Unsettled, false, InOnError("x"))];
    var t3 := Step(t2, g);
    assert [e, f, g][1..] == [f, g] && [f, g][1..] == [g] && [g][1..] == [];
    assert Legal(t3, []) && Legal(t2, [g]) && Legal(t1, [f, g]) && Legal(EMPTY, [e, f, g]);
    assert Run(t2, [g]) == Run(t3, []) == t3 && Run(t1, [f, g]) == t3;
  }

  // The provider's tables, changed by the callbacks of its runs.
  class FlowTable {
    var flows: seq<Flow>
    var flowStates: map<string, nat>
    var cleanupTimeouts: set<string>

    function Value(): Table
      reads this
    {
      Table(flows, flowStates, cleanupTimeouts)
    }

    constructor ()
      ensures Value() == EMPTY
    {
      flows, flowStates, cleanupTimeouts := [], map[], {};
    }

    method ScheduleCleanup(id: string)
      modifies this`cleanupTimeouts
      ensures cleanupTimeouts == old(cleanupTimeouts) + {id}
    {
      cleanupTimeouts := cleanupTimeouts + {id};
    }

    // Starts a run, or finds the one that has the requested id.
    method ExecuteWorkflow(id: string, timeout: int) returns (r: nat)
      requires Inv(Value())
      modifies this
      ensures Value() == Step(old(Value()), Execute(id, timeout > 0))
      ensures r < |flows| && flows[r].id == id
      ensures id in old(flowStates) ==> r == old(flowStates)[id]
    {
      if id in flowStates { return flowStates[id]; }
      r := |flows|;
      flows := flows + [Flow(id, Running, Unsettled, timeout > 0, InSteps)];
      flowStates := flowStates[id := r];
    }

    method OnTimeout(r: nat)
      requires Enabled(Value(), TimeoutFires(r)) && Coherent(flows[r])
      modifies this
      ensures Value() == Step(old(Value()), TimeoutFires(r))
    {
      var f := flows[r].(timer := false);
      if f.status.Running? {
        f := f.(status := Failed);
        if f.promise.Unsettled? { f := f.(promise := Rejected("timed out")); }
      }
      flows := flows[r := f];
    }

    // A step failed and the error handler, if any, has returned.
    method OnStepError(r: nat)
      requires Enabled(Value(), OnErrorReturns(r))
      modifies this
      ensures Value() == Step(old(Value()), OnErrorReturns(r))
    {
      var f := flows[r];
      var error := f.phase.error;
      f := f.(status := Failed, phase := Ended);
      if f.promise.Unsettled? { f := f.(promise := Rejected(error), timer := false); }
      flows := flows[r := f];
      ScheduleCleanup(f.id);
    }

    // The final handler returned; a timeout may have failed the run meanwhile.
    method OnHandlerResult(r: nat, result: string)
      requires Enabled(Value(), HandlerReturns(r, result))
      modifies this
      ensures Value() == Step(old(Value()), HandlerReturns(r, result))
    {
      var f := flows[r].(phase := Ended);
      if !f.status.Failed? {
        f := f.(status := Completed);
        if f.promise.Unsettled? { f := f.(promise := Resolved(result), timer := false); }
      }
      flows := flows[r := f];
      ScheduleCleanup(f.id);
    }

    method OnHandlerError(r: nat, error: string)
      requires Enabled(Value(), HandlerThrows(r, error))
      modifies this
      ensures Value() == Step(old(Value()), HandlerThrows(r, error))
    {
      var f := flows[r].(status := Failed, phase := Ended);
      if f.promise.Unsettled? { f := f.(promise := Rejected(error), timer := false); }
      flows := flows[r := f];
      ScheduleCleanup(f.id);
    }

    method OnCleanup(id: string)
      requires Enabled(Value(), CleanupFires(id))
      modifies this
      ensures Value() == Step(old(Value()), CleanupFires(id))
    {
      flowStates := flowStates - {id};
      cleanupTimeouts := cleanupTimeouts - {id};
    }
  }
}
