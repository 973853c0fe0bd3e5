// Saga execution of step groups, by the in-process provider and by the workflow coordinator.
module Workflow {
  import opened Options
  import opened WorkflowPool

  type Results = map<string, string>

  datatype Outcome = Succeeds(value: string) | Fails(error: string)

  datatype Group = Sequential(steps: seq<string>) | Parallel(steps: seq<string>)

  // How the user's code behaves: a step and a rollback given the results they see, the final handler,
  // and which outputs the schemas of steps and workflow accept. `handlers` tells for each step with a handler whether
  // it has a rollback.
  datatype Env = Env(
    handlers: map<string, bool>,
    run: (string, Results) -> Outcome,
    undo: (string, Results) -> Option<string>,
    accepts: (string, string) -> bool,
    finish: Results -> Outcome,
    acceptsResult: string -> bool
  )

  // Calls into the user's code, with the results each call sees.
  datatype Call = Ran(step: string, seen: Results) | RolledBack(step: string, seen: Results) | Finished(seen: Results)

  datatype Cause =
    | NoHandler(step: string)
    | NoParallelHandler(step: string)
    | StepThrew(step: string, error: string)
    | HandlerThrew(error: string)

  // A failure carries the errors of failed rollbacks, in the order they failed.
  datatype Failure = Failure(cause: Cause, rollbackErrors: seq<string>)

  datatype Progress = Progress(results: Results, completed: seq<string>, calls: seq<Call>, failure: Option<Failure>)

  const FRESH := Progress(map[], [], [], None)

  predicate Undoable(env: Env, step: string) { step in env.handlers && env.handlers[step] }

  // Rollbacks run over the completed steps, the last first; all of them run even when some fail.
  function Rollbacks(completed: seq<string>, seen: Results): seq<Call> {
    if completed == [] then []
    else [RolledBack(completed[|completed| - 1], seen)] + Rollbacks(completed[..|completed| - 1], seen)
  }

  function RollbackErrors(env: Env, completed: seq<string>, seen: Results): seq<string> {
    if completed == [] then []
    else
      var step := completed[|completed| - 1];
      (match env.undo(step, seen) case Some(e) => [e] case None => [])
      + RollbackErrors(env, completed[..|completed| - 1], seen)
  }

  lemma NextRollback(env: Env, completed: seq<string>, i: nat, seen: Results, calls: seq<Call>, errors: seq<string>)
    requires i < |completed|
    ensures var error := match env.undo(completed[i], seen) case Some(e) => [e] case None => [];
      && calls + Rollbacks(completed[..i + 1], seen) ==
           calls + [RolledBack(completed[i], seen)] + Rollbacks(completed[..i], seen)
      && errors + RollbackErrors(env, completed[..i + 1], seen) ==
           errors + error + RollbackErrors(env, completed[..i], seen)
  {
    assert completed[..i + 1][..i] == completed[..i];
  }

  lemma {:induction false} RollbacksAreTheReverse(completed: seq<string>, seen: Results)
    ensures |Rollbacks(completed, seen)| == |completed|
    ensures forall i :: 0 <= i < |completed| ==>
      Rollbacks(completed, seen)[i] == RolledBack(completed[|completed| - 1 - i], seen)
  {
    if completed != [] { RollbacksAreTheReverse(completed[..|completed| - 1], seen); }
  }

  // The errors are those of the single rollbacks, the last step's first.
  lemma {:induction false} RollbackErrorsReverse(env: Env, a: seq<string>, b: seq<string>, seen: Results)
    ensures RollbackErrors(env, a + b, seen) == RollbackErrors(env, b, seen) + RollbackErrors(env, a, seen)
  {
    if b == [] {
      assert a + b == a;
    } else {
      var rest, step := b[..|b| - 1], b[|b| - 1];
      RollbackErrorsReverse(env, a, rest, seen);
      assert (a + b)[..|a + b| - 1] == a + rest && (a + b)[|a + b| - 1] == step;
      var error := match env.undo(step, seen) case Some(e) => [e] case None => [];
      assert RollbackErrors(env, a + b, seen) == error + RollbackErrors(env, a + rest, seen);
    }
  }

  lemma RollbackError(env: Env, step: string, seen: Results)
    ensures RollbackErrors(env, [], seen) == []
    ensures RollbackErrors(env, [step], seen) == if env.undo(step, seen).Some? then [env.undo(step, seen).value] else []
  {
    assert [step][..0] == [];
  }

  // ---------------------------------------------------------------------
  // The in-process provider
  // ---------------------------------------------------------------------

  // Stops the workflow after rolling back.
  function Abort(env: Env, p: Progress, cause: Cause): Progress {
    p.(calls := p.calls + Rollbacks(p.completed, p.results),
       failure := Some(Failure(cause, RollbackErrors(env, p.completed, p.results))))
  }

  function Complete(env: Env, p: Progress, step: string, value: string): Progress {
    p.(results := p.results[step := value],
       completed := if Undoable(env, step) then p.completed + [step] else p.completed)
  }

  function ProviderStep(env: Env, p: Progress, step: string): Progress {
    if p.failure.Some? then p
    else if step !in env.handlers then p.(failure := Some(Failure(NoHandler(step), [])))
    else
      var p' := p.(calls := p.calls + [Ran(step, p.results)]);
      match env.run(step, p.results)
      case Succeeds(value) => Complete(env, p', step, value)
      case Fails(error) => Abort(env, p', StepThrew(step, error))
  }

  function ProviderSequential(env: Env, p: Progress, steps: seq<string>): Progress {
    if steps == [] then p
    else ProviderStep(env, ProviderSequential(env, p, steps[..|steps| - 1]), steps[|steps| - 1])
  }

  // What one step of a parallel group comes to; all of them see the results from before the group.
  datatype Item = Success(step: string, value: string) | Failed(cause: Cause)

  function ItemOf(env: Env, seen: Results, step: string): Item {
    if step !in env.handlers then Failed(NoParallelHandler(step))
    else
      match env.run(step, seen)
      case Succeeds(value) => Success(step, value)
      case Fails(error) => Failed(StepThrew(step, error))
  }

  function Items(env: Env, seen: Results, steps: seq<string>): seq<Item> {
    seq(|steps|, i requires 0 <= i < |steps| => ItemOf(env, seen, steps[i]))
  }

  // The calls of a parallel group, in the order its steps are started.
  function Starts(env: Env, seen: Results, steps: seq<string>): seq<Call> {
    if steps == [] then []
    else
      var step := steps[|steps| - 1];
      Starts(env, seen, steps[..|steps| - 1]) + if step in env.handlers then [Ran(step, seen)] else []
  }

  function FirstFailure(items: seq<Item>): Option<Cause> {
    if items == [] then None
    else
      var earlier := FirstFailure(items[..|items| - 1]);
      if earlier.Some? then earlier
      else match items[|items| - 1] case Failed(cause) => Some(cause) case Success(_, _) => None
  }

  // Enters the results and completed steps of the successful items, in the order of the definition.
  function Gather(env: Env, p: Progress, items: seq<Item>): Progress {
    if items == [] then p
    else
      var before := Gather(env, p, items[..|items| - 1]);
      match items[|items| - 1]
      case Success(step, value) => Complete(env, before, step, value)
      case Failed(_) => before
  }

  function ProviderParallel(env: Env, p: Progress, steps: seq<string>): Progress {
    if p.failure.Some? then p
    else
      var items := Items(env, p.results, steps);
      var p' := Gather(env, p.(calls := p.calls + Starts(env, p.results, steps)), items);
      match FirstFailure(items)
      case Some(cause) => Abort(env, p', cause)
      case None => p'
  }

  function ProviderGroup(env: Env, p: Progress, group: Group): Progress {
    match group
    case Sequential(steps) => ProviderSequential(env, p, steps)
    case Parallel(steps) => ProviderParallel(env, p, steps)
  }

  function ProviderGroups(env: Env, p: Progress, groups: seq<Group>): Progress {
    if groups == [] then p
    else ProviderGroup(env, ProviderGroups(env, p, groups[..|groups| - 1]), groups[|groups| - 1])
  }

  // The final handler runs when no step failed; its failure triggers no rollbacks.
  function Finish(env: Env, p: Progress): Progress {
    if p.failure.Some? then p
    else
      var p' := p.(calls := p.calls + [Finished(p.results)]);
      match env.finish(p.results)
      case Succeeds(_) => p'
      case Fails(error) => p'.(failure := Some(Failure(HandlerThrew(error), [])))
  }

  // The provider's run of one workflow, with the state it changes step by step.
  class ProviderRun {
    const env: Env
    const parallelConcurrency: int
    var results: Results
    var completedStepsWithRollback: seq<string>
    var calls: seq<Call>

    function Value(): Progress
      reads this
    {
      Progress(results, completedStepsWithRollback, calls, None)
    }

    constructor (env: Env, parallelConcurrency: int)
      ensures this.env == env && Value() == FRESH
    {
      this.env, this.parallelConcurrency := env, parallelConcurrency;
      results, completedStepsWithRollback, calls := map[], [], [];
    }

    // Every rollback runs, whether or not others fail; the errors are collected.
    method RunRollbacks() returns (errors: seq<string>)
      modifies this`calls
      ensures calls == old(calls) + Rollbacks(completedStepsWithRollback, results)
      ensures errors == RollbackErrors(env, completedStepsWithRollback, results)
    {
      var completed, seen := completedStepsWithRollback, results;
      assert completed[..|completed|] == completed;
      errors := [];
      for i := |completed| downto 0
        invariant calls + Rollbacks(completed[..i], seen) == old(calls) + Rollbacks(completed, seen)
        invariant errors + RollbackErrors(env, completed[..i], seen) == RollbackErrors(env, completed, seen)
      {
        var step := completed[i];
        NextRollback(env, completed, i, seen, calls, errors);
        calls := calls + [RolledBack(step, seen)];
        match env.undo(step, seen) {
          case Some(error) => errors := errors + [error];
          case None => assert errors + [] == errors;
        }
      }
    }

    method SequentialGroup(steps: seq<string>) returns (failure: Option<Failure>)
      modifies this
      ensures Value().(failure := failure) == ProviderSequential(env, old(Value()), steps)
    {
      for i := 0 to |steps|
        invariant Value() == ProviderSequential(env, old(Value()), steps[..i])
      {
        var step := steps[i];
        assert steps[..i + 1][..i] == steps[..i];
        if step !in env.handlers {
          failure := Some(Failure(NoHandler(step), []));
          SequentialStops(env, old(Value()), steps, i + 1);
          return;
        }
        calls := calls + [Ran(step, results)];
        match env.run(step, results) {
          case Succeeds(value) =>
            results := results[step := value];
            if env.handlers[step] { completedStepsWithRollback := completedStepsWithRollback + [step]; }
          case Fails(error) =>
            var errors := RunRollbacks();
            failure := Some(Failure(StepThrew(step, error), errors));
            SequentialStops(env, old(Value()), steps, i + 1);
            return;
        }
      }
      assert steps[..|steps|] == steps;
      failure := None;
    }

    method ParallelGroup(steps: seq<string>) returns (failure: Option<Failure>)
      modifies this
      ensures Value().(failure := failure) == ProviderParallel(env, old(Value()), steps)
    {
      var seen := results;
      calls := calls + Starts(env, seen, steps);
      var items, _ := ExecuteWithConcurrencyLimit(steps, step => ItemOf(env, seen, step), parallelConcurrency);
      assert items == Items(env, seen, steps);
      ghost var begun := Value();
      var firstError: Option<Cause> := None;
      for i := 0 to |items|
        invariant Value() == Gather(env, begun, items[..i]) && firstError == FirstFailure(items[..i])
      {
        assert items[..i + 1][..i] == items[..i];
        match items[i] {
          case Failed(cause) => if firstError.None? { firstError := Some(cause); }
          case Success(step, value) =>
            results := results[step := value];
            if step in env.handlers && env.handlers[step] {
              completedStepsWithRollback := completedStepsWithRollback + [step];
            }
        }
      }
      assert items[..|items|] == items;
      match firstError {
        case Some(cause) =>
          var errors := RunRollbacks();
          failure := Some(Failure(cause, errors));
        case None => failure := None;
      }
    }

    method Execute(groups: seq<Group>) returns (failure: Option<Failure>)
      requires Value() == FRESH
      modifies this
      ensures Value().(failure := failure) == Finish(env, ProviderGroups(env, FRESH, groups))
    {
      for i := 0 to |groups|
        invariant Value() == ProviderGroups(env, FRESH, groups[..i])
      {
        assert groups[..i + 1][..i] == groups[..i];
        match groups[i] {
          case Sequential(steps) => failure := SequentialGroup(steps);
          case Parallel(steps) => failure := ParallelGroup(steps);
        }
        if failure.Some? {
          GroupsStop(env, FRESH, groups, i + 1);
          return;
        }
      }
      assert groups[..|groups|] == groups;
      calls := calls + [Finished(results)];
      match env.finish(results) {
        case Succeeds(_) => failure := None;
        case Fails(error) => failure := Some(Failure(HandlerThrew(error), []));
      }
    }
  }

  // Once a sequential group has failed, its remaining steps do nothing.
  lemma {:induction false} SequentialStops(env: Env, p: Progress, steps: seq<string>, i: nat)
    requires i <= |steps| && ProviderSequential(env, p, steps[..i]).failure.Some?
    ensures ProviderSequential(env, p, steps) == ProviderSequential(env, p, steps[..i])
  {
    if i < |steps| {
      assert steps[..|steps| - 1][..i] == steps[..i];
      SequentialStops(env, p, steps[..|steps| - 1], i);
    } else {
      assert steps[..i] == steps;
    }
  }

  lemma {:induction false} FailedSequenceIsIdle(env: Env, p: Progress, steps: seq<string>)
    requires p.failure.Some?
    ensures ProviderSequential(env, p, steps) == p
  {
    if steps != [] { FailedSequenceIsIdle(env, p, steps[..|steps| - 1]); }
  }

  lemma {:induction false} GroupsStop(env: Env, p: Progress, groups: seq<Group>, i: nat)
    requires i <= |groups| && ProviderGroups(env, p, groups[..i]).failure.Some?
    ensures ProviderGroups(env, p, groups) == ProviderGroups(env, p, groups[..i])
  {
    if i < |groups| {
      assert groups[..|groups| - 1][..i] == groups[..i];
      GroupsStop(env, p, groups[..|groups| - 1], i);
      if groups[|groups| - 1].Sequential? {
        FailedSequenceIsIdle(env, ProviderGroups(env, p, groups[..i]), groups[|groups| - 1].steps);
      }
    } else {
      assert groups[..i] == groups;
    }
  }

  // ---------------------------------------------------------------------
  // Saga exactness
  // ---------------------------------------------------------------------

  // The steps that succeeded, in the order they were started.
  function Succeeded(env: Env, calls: seq<Call>): seq<string> {
    if calls == [] then []
    else
      Succeeded(env, calls[..|calls| - 1]) +
      match calls[|calls| - 1]
      case Ran(step, seen) => if env.run(step, seen).Succeeds? then [step] else []
      case _ => []
  }

  // The results map that those successes amount to.
  function ResultsOf(env: Env, calls: seq<Call>): Results {
    if calls == [] then map[]
    else
      var before := ResultsOf(env, calls[..|calls| - 1]);
      match calls[|calls| - 1]
      case Ran(step, seen) =>
        (match env.run(step, seen) case Succeeds(value) => before[step := value] case Fails(_) => before)
      case _ => before
  }

  function Keep(env: Env, steps: seq<string>): seq<string> {
    if steps == [] then []
    else Keep(env, steps[..|steps| - 1]) + if Undoable(env, steps[|steps| - 1]) then [steps[|steps| - 1]] else []
  }

  predicate Forward(calls: seq<Call>) { forall i :: 0 <= i < |calls| ==> calls[i].Ran? }

  // The state is what the successful calls so far amount to.
  ghost predicate Faithful(env: Env, p: Progress, forward: seq<Call>) {
    Forward(forward) && p.completed == Keep(env, Succeeded(env, forward)) && p.results == ResultsOf(env, forward)
  }

  function StepsOf(groups: seq<Group>): seq<string> {
    if groups == [] then [] else StepsOf(groups[..|groups| - 1]) + groups[|groups| - 1].steps
  }

  // The steps called, in order.
  function Called(calls: seq<Call>): seq<string> {
    if calls == [] then []
    else Called(calls[..|calls| - 1]) + match calls[|calls| - 1] case Ran(step, _) => [step] case _ => []
  }

  // The steps that have a handler.
  function Handled(env: Env, steps: seq<string>): seq<string> {
    if steps == [] then []
    else
      var step := steps[|steps| - 1];
      Handled(env, steps[..|steps| - 1]) + if step in env.handlers then [step] else []
  }

  ghost predicate FailsWith(env: Env, call: Call, error: string) {
    call.Ran? && env.run(call.step, call.seen) == Fails(error)
  }

  ghost predicate AllSucceed(env: Env, calls: seq<Call>) {
    forall i :: 0 <= i < |calls| ==> calls[i].Ran? && env.run(calls[i].step, calls[i].seen).Succeeds?
  }

  // `forward` calls exactly those of the steps `ran` that have a handler, and the state is what they amount to.
  ghost predicate Trace(env: Env, ran: seq<string>, p: Progress, forward: seq<Call>) {
    Faithful(env, p, forward) && Called(forward) == Handled(env, ran)
  }

  // What the cause of a failure says about the steps that ran.
  ghost predicate Blames(env: Env, ran: seq<string>, forward: seq<Call>, cause: Cause) {
    match cause
    case NoHandler(step) => step in ran && step !in env.handlers && AllSucceed(env, forward)
    case NoParallelHandler(step) => step in ran && step !in env.handlers
    case StepThrew(step, error) =>
      exists i :: 0 <= i < |forward| && forward[i].Ran? && forward[i].step == step && FailsWith(env, forward[i], error)
    case HandlerThrew(_) => false
  }

  // A workflow under way has called all of its steps so far, and all of them succeeded. One that failed
  // has called the first of its steps, has then rolled back exactly the completed ones that have a
  // rollback, the last first, and reports exactly their rollback errors; only a sequential step without
  // a handler ends it without rollbacks.
  ghost predicate Exact(env: Env, steps: seq<string>, p: Progress) {
    match p.failure
    case None => Trace(env, steps, p, p.calls) && AllSucceed(env, p.calls) && Called(p.calls) == steps
    case Some(failure) =>
      exists n, m :: 0 <= n <= |p.calls| && 0 <= m <= |steps| && Ended(env, steps[..m], p, failure, n)
  }

  ghost predicate Ended(env: Env, ran: seq<string>, p: Progress, failure: Failure, n: nat)
    requires n <= |p.calls|
  {
    && Trace(env, ran, p, p.calls[..n]) && EndedAfter(env, p, failure, n)
    && Blames(env, ran, p.calls[..n], failure.cause)
  }

  ghost predicate EndedAfter(env: Env, p: Progress, failure: Failure, n: nat)
    requires n <= |p.calls|
  {
    if failure.cause.NoHandler? then n == |p.calls| && failure.rollbackErrors == []
    else RolledBackAfter(env, p, failure, n)
  }

  ghost predicate RolledBackAfter(env: Env, p: Progress, failure: Failure, n: nat)
    requires n <= |p.calls|
  {
    && p.calls[n..] == Rollbacks(p.completed, p.results)
    && failure.rollbackErrors == RollbackErrors(env, p.completed, p.results)
  }

  lemma CalledSnoc(calls: seq<Call>, step: string, seen: Results)
    ensures Called(calls + [Ran(step, seen)]) == Called(calls) + [step]
  {
    assert (calls + [Ran(step, seen)])[..|calls|] == calls;
  }

  lemma HandledSnoc(env: Env, steps: seq<string>, step: string)
    ensures Handled(env, steps + [step]) == Handled(env, steps) + if step in env.handlers then [step] else []
  {
    assert (steps + [step])[..|steps|] == steps;
  }

  lemma {:induction false} CalledConcat(a: seq<Call>, b: seq<Call>)
    ensures Called(a + b) == Called(a) + Called(b)
  {
    if b == [] {
      assert a + b == a;
    } else {
      CalledConcat(a, b[..|b| - 1]);
      assert (a + b)[..|a + b| - 1] == a + b[..|b| - 1];
    }
  }

  lemma {:induction false} HandledConcat(env: Env, a: seq<string>, b: seq<string>)
    ensures Handled(env, a + b) == Handled(env, a) + Handled(env, b)
  {
    if b == [] {
      assert a + b == a;
    } else {
      HandledConcat(env, a, b[..|b| - 1]);
      assert (a + b)[..|a + b| - 1] == a + b[..|b| - 1];
    }
  }

  lemma RanAdds(env: Env, forward: seq<Call>, step: string, seen: Results)
    ensures var calls := forward + [Ran(step, seen)];
      && (env.run(step, seen).Succeeds? ==>
           && Succeeded(env, calls) == Succeeded(env, forward) + [step]
           && ResultsOf(env, calls) == ResultsOf(env, forward)[step := env.run(step, seen).value]
           && Keep(env, Succeeded(env, calls)) ==
                Keep(env, Succeeded(env, forward)) + (if Undoable(env, step) then [step] else []))
      && (env.run(step, seen).Fails? ==>
           Succeeded(env, calls) == Succeeded(env, forward) && ResultsOf(env, calls) == ResultsOf(env, forward))
  {
    var calls := forward + [Ran(step, seen)];
    assert calls[..|calls| - 1] == forward;
    var s := Succeeded(env, forward);
    assert (s + [step])[..|s + [step]| - 1] == s;
  }

  lemma AbortIsExact(env: Env, steps: seq<string>, p: Progress, cause: Cause)
    requires Trace(env, steps, p, p.calls) && Blames(env, steps, p.calls, cause) && !cause.NoHandler?
    ensures Exact(env, steps, Abort(env, p, cause))
  {
    var p', n := Abort(env, p, cause), |p.calls|;
    assert p'.calls[..n] == p.calls && p'.calls[n..] == Rollbacks(p.completed, p.results);
    assert steps[..|steps|] == steps;
    assert Ended(env, steps[..|steps|], p', p'.failure.value, n);
  }

  lemma FailureIsFinal(env: Env, steps: seq<string>, more: seq<string>, p: Progress)
    requires Exact(env, steps, p) && p.failure.Some?
    ensures Exact(env, steps + more, p)
  {
    var n, m :| 0 <= n <= |p.calls| && 0 <= m <= |steps| && Ended(env, steps[..m], p, p.failure.value, n);
    assert (steps + more)[..m] == steps[..m];
  }

  lemma MissingHandlerIsExact(env: Env, steps: seq<string>, p: Progress, step: string)
    requires Exact(env, steps, p) && p.failure.None? && step !in env.handlers
    ensures Exact(env, steps + [step], p.(failure := Some(Failure(NoHandler(step), []))))
  {
    var p', ran := p.(failure := Some(Failure(NoHandler(step), []))), steps + [step];
    HandledSnoc(env, steps, step);
    assert p'.calls[..|p'.calls|] == p.calls && ran[..|ran|] == ran && step in ran;
    assert Ended(env, ran[..|ran|], p', p'.failure.value, |p'.calls|);
  }

  lemma RanIsFaithful(env: Env, p: Progress, forward: seq<Call>, step: string, seen: Results)
    requires Faithful(env, p, forward)
    ensures
      var p' := match env.run(step, seen) case Succeeds(value) => Complete(env, p, step, value) case Fails(_) => p;
      Faithful(env, p', forward + [Ran(step, seen)])
  {
    RanAdds(env, forward, step, seen);
  }

  lemma StepTraces(env: Env, steps: seq<string>, p: Progress, forward: seq<Call>, step: string, seen: Results)
    requires Trace(env, steps, p, forward) && step in env.handlers
    ensures
      var p' := match env.run(step, seen) case Succeeds(value) => Complete(env, p, step, value) case Fails(_) => p;
      Trace(env, steps + [step], p', forward + [Ran(step, seen)])
  {
    RanIsFaithful(env, p, forward, step, seen);
    CalledSnoc(forward, step, seen);
    HandledSnoc(env, steps, step);
  }

  lemma FailedStepIsExact(env: Env, steps: seq<string>, p: Progress, step: string)
    requires Exact(env, steps, p) && p.failure.None? && step in env.handlers && env.run(step, p.results).Fails?
    ensures Exact(env, steps + [step], ProviderStep(env, p, step))
  {
    var call, error := Ran(step, p.results), env.run(step, p.results).error;
    var p' := p.(calls := p.calls + [call]);
    StepTraces(env, steps, p, p.calls, step, p.results);
    assert Trace(env, steps + [step], p', p'.calls);
    assert p'.calls[|p.calls|] == call && FailsWith(env, call, error);
    AbortIsExact(env, steps + [step], p', StepThrew(step, error));
  }

  lemma SucceededStepIsExact(env: Env, steps: seq<string>, p: Progress, step: string)
    requires Exact(env, steps, p) && p.failure.None? && step in env.handlers && env.run(step, p.results).Succeeds?
    ensures Exact(env, steps + [step], ProviderStep(env, p, step))
  {
    var call, p' := Ran(step, p.results), ProviderStep(env, p, step);
    StepTraces(env, steps, p, p.calls, step, p.results);
    CalledSnoc(p.calls, step, p.results);
    assert p'.calls == p.calls + [call];
    assert Trace(env, steps + [step], p', p'.calls);
  }

  lemma StepIsExact(env: Env, steps: seq<string>, p: Progress, step: string)
    requires Exact(env, steps, p)
    ensures Exact(env, steps + [step], ProviderStep(env, p, step))
  {
    if p.failure.Some? {
      FailureIsFinal(env, steps, [step], p);
    } else if step !in env.handlers {
      MissingHandlerIsExact(env, steps, p, step);
    } else if env.run(step, p.results).Fails? {
      FailedStepIsExact(env, steps, p, step);
    } else {
      SucceededStepIsExact(env, steps, p, step);
    }
  }

  lemma NextStepIsExact(env: Env, before: seq<string>, p: Progress, steps: seq<string>)
    requires steps != []
    requires var rest := steps[..|steps| - 1]; Exact(env, before + rest, ProviderSequential(env, p, rest))
    ensures Exact(env, before + steps, ProviderSequential(env, p, steps))
  {
    var rest, step := steps[..|steps| - 1], steps[|steps| - 1];
    assert before + steps == before + rest + [step];
    StepIsExact(env, before + rest, ProviderSequential(env, p, rest), step);
  }

  lemma {:induction false} SequentialIsExact(env: Env, before: seq<string>, p: Progress, steps: seq<string>)
    requires Exact(env, before, p)
    ensures Exact(env, before + steps, ProviderSequential(env, p, steps))
  {
    if steps == [] {
      assert before + steps == before;
    } else {
      SequentialIsExact(env, before, p, steps[..|steps| - 1]);
      NextStepIsExact(env, before, p, steps);
    }
  }

  // Gathering the items of a parallel group is what running its steps one after another, on the
  // results from before the group, amounts to.
  lemma {:induction false} GatherIsFaithful(env: Env, p: Progress, steps: seq<string>, forward: seq<Call>)
    requires Faithful(env, p, forward)
    ensures Faithful(env, Gather(env, p, Items(env, p.results, steps)), forward + Starts(env, p.results, steps))
  {
    if steps == [] {
      assert forward + [] == forward;
    } else {
      var rest, step := steps[..|steps| - 1], steps[|steps| - 1];
      GatherIsFaithful(env, p, rest, forward);
      assert Items(env, p.results, steps)[..|steps| - 1] == Items(env, p.results, rest);
      var before := forward + Starts(env, p.results, rest);
      if step in env.handlers {
        RanIsFaithful(env, Gather(env, p, Items(env, p.results, rest)), before, step, p.results);
        assert forward + Starts(env, p.results, steps) == before + [Ran(step, p.results)];
      } else {
        assert forward + Starts(env, p.results, steps) == before;
      }
    }
  }

  // Gathering reads neither the calls nor the failure.
  lemma {:induction false} GatherIgnoresCalls(env: Env, p: Progress, calls: seq<Call>, items: seq<Item>)
    ensures var a, b := Gather(env, p, items), Gather(env, p.(calls := calls), items);
      a.results == b.results && a.completed == b.completed && a.calls == p.calls && b.calls == calls
      && a.failure == b.failure == p.failure
  {
    if items != [] { GatherIgnoresCalls(env, p, calls, items[..|items| - 1]); }
  }

  lemma GatherKeepsCalls(env: Env, p: Progress, steps: seq<string>)
    ensures var p' := Gather(env, p.(calls := p.calls + Starts(env, p.results, steps)), Items(env, p.results, steps));
      var q := Gather(env, p, Items(env, p.results, steps));
      && p'.calls == p.calls + Starts(env, p.results, steps)
      && p'.results == q.results && p'.completed == q.completed && p'.failure == p.failure
  {
    GatherIgnoresCalls(env, p, p.calls + Starts(env, p.results, steps), Items(env, p.results, steps));
  }

  // The failure reported is that of the first failed item in the order of the definition.
  lemma {:induction false} FirstFailureIsFailed(items: seq<Item>)
    ensures FirstFailure(items).None? <==> forall i :: 0 <= i < |items| ==> items[i].Success?
    ensures FirstFailure(items).Some? ==>
      exists i :: 0 <= i < |items| && items[i] == Failed(FirstFailure(items).value) &&
        (forall j :: 0 <= j < i ==> items[j].Success?)
  {
    if items != [] {
      var rest := items[..|items| - 1];
      FirstFailureIsFailed(rest);
      if FirstFailure(rest).Some? {
        var i :| 0 <= i < |rest| && rest[i] == Failed(FirstFailure(rest).value) &&
          (forall j :: 0 <= j < i ==> rest[j].Success?);
        assert items[i] == rest[i] && forall j :: 0 <= j < i ==> items[j] == rest[j];
      } else {
        assert forall j :: 0 <= j < |rest| ==> items[j] == rest[j];
      }
    }
  }

  // The calls of a parallel group are those of its steps that have a handler.
  lemma {:induction false} StartsAreCalled(env: Env, seen: Results, steps: seq<string>)
    ensures Called(Starts(env, seen, steps)) == Handled(env, steps)
  {
    if steps != [] {
      var rest, step := steps[..|steps| - 1], steps[|steps| - 1];
      StartsAreCalled(env, seen, rest);
      var before := Starts(env, seen, rest);
      if step in env.handlers { CalledSnoc(before, step, seen); } else { assert before + [] == before; }
    }
  }

  lemma {:induction false} StartsOf(env: Env, seen: Results, steps: seq<string>, i: nat)
    requires i < |steps| && steps[i] in env.handlers
    ensures Ran(steps[i], seen) in Starts(env, seen, steps)
  {
    if i < |steps| - 1 { StartsOf(env, seen, steps[..|steps| - 1], i); }
  }

  lemma {:induction false} StartIsOf(env: Env, seen: Results, steps: seq<string>, call: Call)
    requires call in Starts(env, seen, steps)
    ensures call.Ran? && call.seen == seen && call.step in steps
  {
    var rest := steps[..|steps| - 1];
    if call in Starts(env, seen, rest) { StartIsOf(env, seen, rest, call); }
  }

  lemma {:induction false} AllHandled(env: Env, steps: seq<string>)
    requires forall i :: 0 <= i < |steps| ==> steps[i] in env.handlers
    ensures Handled(env, steps) == steps
  {
    if steps != [] {
      AllHandled(env, steps[..|steps| - 1]);
      assert steps == steps[..|steps| - 1] + [steps[|steps| - 1]];
    }
  }

  lemma FailedItemIsBlamed(env: Env, seen: Results, steps: seq<string>, forward: seq<Call>, cause: Cause)
    requires FirstFailure(Items(env, seen, steps)) == Some(cause)
    ensures Blames(env, steps, forward + Starts(env, seen, steps), cause) && !cause.NoHandler?
  {
    var items, starts := Items(env, seen, steps), Starts(env, seen, steps);
    FirstFailureIsFailed(items);
    var i :| 0 <= i < |items| && items[i] == Failed(cause);
    assert items[i] == ItemOf(env, seen, steps[i]);
    if cause.StepThrew? {
      StartsOf(env, seen, steps, i);
      var j :| 0 <= j < |starts| && starts[j] == Ran(steps[i], seen);
      assert (forward + starts)[|forward| + j] == starts[j] && FailsWith(env, starts[j], cause.error);
    }
  }

  lemma BlamesMore(env: Env, before: seq<string>, ran: seq<string>, forward: seq<Call>, cause: Cause)
    requires Blames(env, ran, forward, cause)
    ensures Blames(env, before + ran, forward, cause)
  {
  }

  lemma SuccessfulItemsSucceed(env: Env, seen: Results, steps: seq<string>)
    requires FirstFailure(Items(env, seen, steps)).None?
    ensures AllSucceed(env, Starts(env, seen, steps)) && Called(Starts(env, seen, steps)) == steps
  {
    var items, starts := Items(env, seen, steps), Starts(env, seen, steps);
    FirstFailureIsFailed(items);
    forall i | 0 <= i < |steps| ensures steps[i] in env.handlers && env.run(steps[i], seen).Succeeds? {
      assert items[i].Success? && items[i] == ItemOf(env, seen, steps[i]);
    }
    AllHandled(env, steps);
    StartsAreCalled(env, seen, steps);
    forall j | 0 <= j < |starts| ensures starts[j].Ran? && env.run(starts[j].step, starts[j].seen).Succeeds? {
      StartIsOf(env, seen, steps, starts[j]);
    }
  }

  lemma GroupTraces(env: Env, before: seq<string>, p: Progress, steps: seq<string>)
    requires Trace(env, before, p, p.calls)
    ensures
      var starts := Starts(env, p.results, steps);
      var p' := Gather(env, p.(calls := p.calls + starts), Items(env, p.results, steps));
      p'.calls == p.calls + starts && p'.failure == p.failure && Trace(env, before + steps, p', p'.calls)
  {
    GatherIsFaithful(env, p, steps, p.calls);
    GatherKeepsCalls(env, p, steps);
    StartsAreCalled(env, p.results, steps);
    CalledConcat(p.calls, Starts(env, p.results, steps));
    HandledConcat(env, before, steps);
  }

  lemma ParallelIsExact(env: Env, before: seq<string>, p: Progress, steps: seq<string>)
    requires Exact(env, before, p)
    ensures Exact(env, before + steps, ProviderParallel(env, p, steps))
  {
    if p.failure.Some? {
      FailureIsFinal(env, before, steps, p);
    } else {
      var starts, items := Starts(env, p.results, steps), Items(env, p.results, steps);
      var p' := Gather(env, p.(calls := p.calls + starts), items);
      GroupTraces(env, before, p, steps);
      match FirstFailure(items) {
        case Some(cause) =>
          FailedItemIsBlamed(env, p.results, steps, p.calls, cause);
          BlamesMore(env, before, steps, p'.calls, cause);
          AbortIsExact(env, before + steps, p', cause);
        case None =>
          SuccessfulItemsSucceed(env, p.results, steps);
          SuccessesAdd(env, p.calls, starts);
      }
    }
  }

  lemma SuccessesAdd(env: Env, a: seq<Call>, b: seq<Call>)
    requires AllSucceed(env, a) && AllSucceed(env, b)
    ensures AllSucceed(env, a + b) && Called(a + b) == Called(a) + Called(b)
  {
    CalledConcat(a, b);
  }

  // Saga exactness over any groups.
  lemma {:induction false} GroupsAreExact(env: Env, groups: seq<Group>)
    ensures Exact(env, StepsOf(groups), ProviderGroups(env, FRESH, groups))
  {
    if groups != [] {
      var rest := groups[..|groups| - 1];
      GroupsAreExact(env, rest);
      var p := ProviderGroups(env, FRESH, rest);
      match groups[|groups| - 1] {
        case Sequential(steps) => SequentialIsExact(env, StepsOf(rest), p, steps);
        case Parallel(steps) => ParallelIsExact(env, StepsOf(rest), p, steps);
      }
    }
  }

  lemma SuccessesDoNotFail(env: Env, calls: seq<Call>, n: nat, i: nat, error: string)
    requires i < n <= |calls| && AllSucceed(env, calls[..n])
    ensures !FailsWith(env, calls[i], error)
  {
    assert calls[..n][i] == calls[i];
  }

  lemma RollbacksDoNotRun(calls: seq<Call>, n: nat, completed: seq<string>, seen: Results)
    requires n <= |calls| && calls[n..] == Rollbacks(completed, seen)
    ensures forall j :: n <= j < |calls| ==> calls[j].RolledBack?
  {
    RollbacksAreTheReverse(completed, seen);
    forall j | n <= j < |calls| ensures calls[j].RolledBack? { assert calls[j] == calls[n..][j - n]; }
  }

  // When a step that has a handler fails, the run fails, and after its steps it has called exactly the
  // rollbacks of all steps that succeeded and have one, the last first, and reports their failures.
  lemma FailedStepIsRolledBack(env: Env, groups: seq<Group>, i: nat, error: string)
    requires var p := ProviderGroups(env, FRESH, groups); i < |p.calls| && FailsWith(env, p.calls[i], error)
    ensures var p := ProviderGroups(env, FRESH, groups);
      && p.failure.Some?
      && exists n :: i < n <= |p.calls|
           && Forward(p.calls[..n]) && p.completed == Keep(env, Succeeded(env, p.calls[..n]))
           && RolledBackAfter(env, p, p.failure.value, n)
  {
    GroupsAreExact(env, groups);
    var p, steps := ProviderGroups(env, FRESH, groups), StepsOf(groups);
    var n, m :| 0 <= n <= |p.calls| && 0 <= m <= |steps| && Ended(env, steps[..m], p, p.failure.value, n);
    if p.failure.value.cause.NoHandler? {
      SuccessesDoNotFail(env, p.calls, n, i, error);
    } else {
      RollbacksDoNotRun(p.calls, n, p.completed, p.results);
    }
  }

  // The calls from the `n`th on that run a step see the results of the successful calls before them, or
  // before the parallel group they belong to.
  ghost predicate SeeResults(env: Env, calls: seq<Call>, n: nat, group: Group)
    requires n <= |calls|
  {
    forall i :: n <= i < |calls| && calls[i].Ran? ==>
      calls[i].seen == ResultsOf(env, calls[..if group.Sequential? then i else n])
  }

  // A run under way, whose results are those of the successful calls.
  ghost predicate UnderWay(env: Env, p: Progress) { p.failure.None? && p.results == ResultsOf(env, p.calls) }

  lemma RollbacksSeeNothing(env: Env, calls: seq<Call>, n: nat, group: Group, completed: seq<string>, seen: Results)
    requires n <= |calls| && SeeResults(env, calls, n, group)
    ensures SeeResults(env, calls + Rollbacks(completed, seen), n, group)
  {
    var calls' := calls + Rollbacks(completed, seen);
    RollbacksAreTheReverse(completed, seen);
    assert forall i :: |calls| <= i < |calls'| ==> calls'[i].RolledBack?;
    forall i | n <= i < |calls'| && calls'[i].Ran?
      ensures calls'[i].seen == ResultsOf(env, calls'[..if group.Sequential? then i else n])
    {
      assert calls'[..i] == calls[..i] && calls'[..n] == calls[..n];
    }
  }

  lemma StepSeesResults(env: Env, p: Progress, n: nat, group: Group, step: string)
    requires group.Sequential? && n <= |p.calls| && SeeResults(env, p.calls, n, group)
    requires p.failure.None? ==> UnderWay(env, p)
    ensures var p' := ProviderStep(env, p, step);
      && p.calls <= p'.calls && SeeResults(env, p'.calls, n, group) && (p'.failure.None? ==> UnderWay(env, p'))
  {
    if p.failure.None? && step in env.handlers {
      var calls := p.calls + [Ran(step, p.results)];
      RanAdds(env, p.calls, step, p.results);
      forall i | n <= i < |calls| && calls[i].Ran? ensures calls[i].seen == ResultsOf(env, calls[..i]) {
        assert calls[..i] == p.calls[..i] && p.calls[..|p.calls|] == p.calls;
      }
      assert SeeResults(env, calls, n, group);
      if env.run(step, p.results).Fails? { RollbacksSeeNothing(env, calls, n, group, p.completed, p.results); }
    }
  }

  lemma {:induction false} SequenceSeesResults(env: Env, p: Progress, steps: seq<string>)
    requires UnderWay(env, p)
    ensures var p' := ProviderSequential(env, p, steps);
      && p.calls <= p'.calls && SeeResults(env, p'.calls, |p.calls|, Sequential(steps))
      && (p'.failure.None? ==> UnderWay(env, p'))
  {
    if steps != [] {
      var rest := steps[..|steps| - 1];
      SequenceSeesResults(env, p, rest);
      StepSeesResults(env, ProviderSequential(env, p, rest), |p.calls|, Sequential(steps), steps[|steps| - 1]);
    }
  }

  lemma ParallelSeesResults(env: Env, p: Progress, steps: seq<string>)
    requires UnderWay(env, p) && Faithful(env, p, p.calls)
    ensures var p' := ProviderParallel(env, p, steps);
      && p.calls <= p'.calls && SeeResults(env, p'.calls, |p.calls|, Parallel(steps))
      && (p'.failure.None? ==> UnderWay(env, p'))
  {
    var starts, items := Starts(env, p.results, steps), Items(env, p.results, steps);
    var p' := Gather(env, p.(calls := p.calls + starts), items);
    GatherIsFaithful(env, p, steps, p.calls);
    GatherKeepsCalls(env, p, steps);
    forall i | |p.calls| <= i < |p'.calls| ensures p'.calls[i].Ran? && p'.calls[i].seen == p.results {
      StartIsOf(env, p.results, steps, starts[i - |p.calls|]);
    }
    assert p'.calls[..|p.calls|] == p.calls;
    assert SeeResults(env, p'.calls, |p.calls|, Parallel(steps));
    if FirstFailure(items).Some? {
      RollbacksSeeNothing(env, p'.calls, |p.calls|, Parallel(steps), p'.completed, p'.results);
    }
  }

  // In any run, a step of a sequential group sees the results of all successful steps called before it,
  // and the steps of a parallel group those of all successful steps before the group; rollbacks come last.
  lemma StepsSeeEarlierResults(env: Env, groups: seq<Group>, g: nat)
    requires g < |groups| && ProviderGroups(env, FRESH, groups[..g]).failure.None?
    ensures var p, p' := ProviderGroups(env, FRESH, groups[..g]), ProviderGroups(env, FRESH, groups[..g + 1]);
      && p.calls <= p'.calls && p.results == ResultsOf(env, p.calls)
      && forall i :: |p.calls| <= i < |p'.calls| && p'.calls[i].Ran? ==>
           p'.calls[i].seen == ResultsOf(env, if groups[g].Sequential? then p'.calls[..i] else p.calls)
  {
    GroupsAreExact(env, groups[..g]);
    var p, p' := ProviderGroups(env, FRESH, groups[..g]), ProviderGroups(env, FRESH, groups[..g + 1]);
    assert groups[..g + 1][..g] == groups[..g];
    match groups[g] {
      case Sequential(steps) => SequenceSeesResults(env, p, steps);
      case Parallel(steps) => ParallelSeesResults(env, p, steps);
    }
    assert p'.calls[..|p.calls|] == p.calls;
  }

  lemma EndedHasNotFinished(env: Env, ran: seq<string>, p: Progress, failure: Failure, n: nat)
    requires n <= |p.calls| && Ended(env, ran, p, failure, n)
    ensures forall i :: 0 <= i < |p.calls| ==> !p.calls[i].Finished?
  {
    if !failure.cause.NoHandler? { RollbacksDoNotRun(p.calls, n, p.completed, p.results); }
    forall i | 0 <= i < n ensures p.calls[i].Ran? { assert p.calls[i] == p.calls[..n][i]; }
  }

  lemma FinishedNotYet(env: Env, groups: seq<Group>)
    ensures forall call :: call in ProviderGroups(env, FRESH, groups).calls ==> !call.Finished?
  {
    GroupsAreExact(env, groups);
    var p, steps := ProviderGroups(env, FRESH, groups), StepsOf(groups);
    if p.failure.Some? {
      var n, m :| 0 <= n <= |p.calls| && 0 <= m <= |steps| && Ended(env, steps[..m], p, p.failure.value, n);
      EndedHasNotFinished(env, steps[..m], p, p.failure.value, n);
    }
  }

  // The final handler is called exactly when no step failed, once and last, with all results. A run
  // succeeds exactly when the handler then does, and a failing handler rolls nothing back.
  lemma RunsFinishExactly(env: Env, groups: seq<Group>)
    ensures var p, end := ProviderGroups(env, FRESH, groups), Finish(env, ProviderGroups(env, FRESH, groups));
      && end.results == p.results
      && (end.failure.None? <==> p.failure.None? && env.finish(p.results).Succeeds?)
      && ((exists call :: call in end.calls && call.Finished?) <==> p.failure.None?)
      && (p.failure.None? ==> end.calls == p.calls + [Finished(p.results)])
      && (forall call :: call in p.calls ==> !call.Finished?)
      && (p.failure.None? && env.finish(p.results).Fails? ==>
            end.failure == Some(Failure(HandlerThrew(env.finish(p.results).error), [])))
  {
    FinishedNotYet(env, groups);
    var p, end := ProviderGroups(env, FRESH, groups), Finish(env, ProviderGroups(env, FRESH, groups));
    if p.failure.None? { assert end.calls[|p.calls|] == Finished(p.results); }
  }

  // ---------------------------------------------------------------------
  // The coordinator
  // ---------------------------------------------------------------------

  // The coordinator also checks a step's output against its schema.
  function Checked(env: Env, step: string, seen: Results): Outcome {
    match env.run(step, seen)
    case Succeeds(value) => if env.accepts(step, value) then Succeeds(value) else Fails("output validation failed")
    case Fails(error) => Fails(error)
  }

  // It keeps all completed steps and skips those without a rollback when it rolls back.
  function CoordinatorRollbacks(env: Env, completed: seq<string>, seen: Results): seq<Call> {
    if completed == [] then []
    else
      var step := completed[|completed| - 1];
      (if Undoable(env, step) then [RolledBack(step, seen)] else [])
      + CoordinatorRollbacks(env, completed[..|completed| - 1], seen)
  }

  // Rolls back, then throws the original error again; rollback errors are only logged.
  function Rethrow(env: Env, p: Progress, cause: Cause): Progress {
    p.(calls := p.calls + CoordinatorRollbacks(env, p.completed, p.results), failure := Some(Failure(cause, [])))
  }

  function CoordinatorStep(env: Env, p: Progress, step: string): Progress {
    if p.failure.Some? then p
    else if step !in env.handlers then p.(failure := Some(Failure(NoHandler(step), [])))
    else
      var p' := p.(calls := p.calls + [Ran(step, p.results)]);
      match Checked(env, step, p.results)
      case Succeeds(value) => p'.(results := p.results[step := value], completed := p.completed + [step])
      case Fails(error) => Rethrow(env, p', StepThrew(step, error))
  }

  function CoordinatorSequential(env: Env, p: Progress, steps: seq<string>): Progress {
    if steps == [] then p
    else CoordinatorStep(env, CoordinatorSequential(env, p, steps[..|steps| - 1]), steps[|steps| - 1])
  }

  function CoordinatorItem(env: Env, seen: Results, step: string): Item {
    if step !in env.handlers then Failed(NoParallelHandler(step))
    else
      match Checked(env, step, seen)
      case Succeeds(value) => Success(step, value)
      case Fails(error) => Failed(StepThrew(step, error))
  }

  function CoordinatorItems(env: Env, seen: Results, steps: seq<string>): seq<Item> {
    seq(|steps|, i requires 0 <= i < |steps| => CoordinatorItem(env, seen, steps[i]))
  }

  function CoordinatorGather(p: Progress, items: seq<Item>): Progress {
    if items == [] then p
    else
      var before := CoordinatorGather(p, items[..|items| - 1]);
      match items[|items| - 1]
      case Success(step, value) =>
        before.(results := before.results[step := value], completed := before.completed + [step])
      case Failed(_) => before
  }

  function CoordinatorParallel(env: Env, p: Progress, steps: seq<string>): Progress {
    if p.failure.Some? then p
    else
      var items := CoordinatorItems(env, p.results, steps);
      var p' := CoordinatorGather(p.(calls := p.calls + Starts(env, p.results, steps)), items);
      match FirstFailure(items)
      case Some(cause) => Rethrow(env, p', cause)
      case None => p'
  }

  function CoordinatorGroup(env: Env, p: Progress, group: Group): Progress {
    match group
    case Sequential(steps) => CoordinatorSequential(env, p, steps)
    case Parallel(steps) => CoordinatorParallel(env, p, steps)
  }

  function CoordinatorGroups(env: Env, p: Progress, groups: seq<Group>): Progress {
    if groups == [] then p
    else CoordinatorGroup(env, CoordinatorGroups(env, p, groups[..|groups| - 1]), groups[|groups| - 1])
  }

  // The result of the final handler is checked as well.
  function CoordinatorFinish(env: Env, p: Progress): Progress {
    if p.failure.Some? then p
    else
      var p' := p.(calls := p.calls + [Finished(p.results)]);
      match env.finish(p.results)
      case Succeeds(result) =>
        if env.acceptsResult(result) then p'
        else p'.(failure := Some(Failure(HandlerThrew("result validation failed"), [])))
      case Fails(error) => p'.(failure := Some(Failure(HandlerThrew(error), [])))
  }

  // ---------------------------------------------------------------------
  // The two executors agree
  // ---------------------------------------------------------------------

  // `checked` behaves as `env` does, but for outputs and results that their schema refuses: those fail.
  ghost predicate Checks(env: Env, checked: Env) {
    && checked.handlers == env.handlers && checked.undo == env.undo
    && (forall step, seen ::
          match env.run(step, seen)
          case Fails(error) => checked.run(step, seen) == Fails(error)
          case Succeeds(value) =>
            if env.accepts(step, value) then checked.run(step, seen) == Succeeds(value)
            else checked.run(step, seen) == Fails("output validation failed"))
    && (forall seen ::
          match env.finish(seen)
          case Fails(error) => checked.finish(seen) == Fails(error)
          case Succeeds(result) =>
            if env.acceptsResult(result) then checked.finish(seen) == Succeeds(result)
            else checked.finish(seen) == Fails("result validation failed"))
  }

  ghost predicate SchemaValid(env: Env) {
    && (forall step, seen :: env.run(step, seen).Succeeds? ==> env.accepts(step, env.run(step, seen).value))
    && (forall seen :: env.finish(seen).Succeeds? ==> env.acceptsResult(env.finish(seen).value))
  }

  // Same calls with the same visible results, same results map, same success or first cause of
  // failure; the provider keeps only the completed steps that have a rollback.
  ghost predicate Agree(env: Env, p: Progress, c: Progress) {
    && p.results == c.results && p.calls == c.calls && p.completed == Keep(env, c.completed)
    && (p.failure.Some? <==> c.failure.Some?)
    && (p.failure.Some? ==> p.failure.value.cause == c.failure.value.cause)
  }

  lemma KeepSnoc(env: Env, steps: seq<string>, step: string)
    ensures Keep(env, steps + [step]) == Keep(env, steps) + if Undoable(env, step) then [step] else []
  {
    assert (steps + [step])[..|steps + [step]| - 1] == steps;
  }

  lemma {:induction false} RollbacksAgree(env: Env, completed: seq<string>, seen: Results)
    ensures CoordinatorRollbacks(env, completed, seen) == Rollbacks(Keep(env, completed), seen)
  {
    if completed != [] {
      var rest, step := completed[..|completed| - 1], completed[|completed| - 1];
      RollbacksAgree(env, rest, seen);
      if Undoable(env, step) {
        assert Keep(env, completed)[..|Keep(env, completed)| - 1] == Keep(env, rest);
      } else {
        assert Keep(env, completed) == Keep(env, rest);
      }
    }
  }

  lemma AbortsAgree(env: Env, checked: Env, p: Progress, c: Progress, cause: Cause)
    requires Checks(env, checked) && Agree(env, p, c)
    ensures Agree(env, Abort(checked, p, cause), Rethrow(env, c, cause))
  {
    RollbacksAgree(env, c.completed, c.results);
  }

  lemma StepsAgree(env: Env, checked: Env, p: Progress, c: Progress, step: string)
    requires Checks(env, checked) && Agree(env, p, c)
    ensures Agree(env, ProviderStep(checked, p, step), CoordinatorStep(env, c, step))
  {
    if p.failure.None? && step in env.handlers {
      var calls := p.calls + [Ran(step, p.results)];
      match checked.run(step, p.results) {
        case Succeeds(_) => KeepSnoc(env, c.completed, step);
        case Fails(error) =>
          AbortsAgree(env, checked, p.(calls := calls), c.(calls := calls), StepThrew(step, error));
      }
    }
  }

  lemma {:induction false} SequencesAgree(env: Env, checked: Env, p: Progress, c: Progress, steps: seq<string>)
    requires Checks(env, checked) && Agree(env, p, c)
    ensures Agree(env, ProviderSequential(checked, p, steps), CoordinatorSequential(env, c, steps))
  {
    if steps != [] {
      var rest := steps[..|steps| - 1];
      SequencesAgree(env, checked, p, c, rest);
      var p', c' := ProviderSequential(checked, p, rest), CoordinatorSequential(env, c, rest);
      StepsAgree(env, checked, p', c', steps[|steps| - 1]);
    }
  }

  lemma {:induction false} GathersAgree(env: Env, checked: Env, p: Progress, c: Progress, items: seq<Item>)
    requires Checks(env, checked) && Agree(env, p, c)
    ensures Agree(env, Gather(checked, p, items), CoordinatorGather(c, items))
    ensures Gather(checked, p, items).failure == p.failure && CoordinatorGather(c, items).failure == c.failure
  {
    if items != [] {
      var rest := items[..|items| - 1];
      GathersAgree(env, checked, p, c, rest);
      match items[|items| - 1] {
        case Success(step, _) => KeepSnoc(env, CoordinatorGather(c, rest).completed, step);
        case Failed(_) =>
      }
    }
  }

  lemma {:induction false} StartsAgree(env: Env, checked: Env, seen: Results, steps: seq<string>)
    requires Checks(env, checked)
    ensures Starts(env, seen, steps) == Starts(checked, seen, steps)
  {
    if steps != [] { StartsAgree(env, checked, seen, steps[..|steps| - 1]); }
  }

  lemma ParallelsAgree(env: Env, checked: Env, p: Progress, c: Progress, steps: seq<string>)
    requires Checks(env, checked) && Agree(env, p, c)
    ensures Agree(env, ProviderParallel(checked, p, steps), CoordinatorParallel(env, c, steps))
  {
    if p.failure.None? {
      var items := Items(checked, p.results, steps);
      assert items == CoordinatorItems(env, c.results, steps);
      StartsAgree(env, checked, p.results, steps);
      var calls := p.calls + Starts(env, p.results, steps);
      var p', c' := p.(calls := calls), c.(calls := calls);
      GathersAgree(env, checked, p', c', items);
      match FirstFailure(items) {
        case Some(cause) =>
          AbortsAgree(env, checked, Gather(checked, p', items), CoordinatorGather(c', items), cause);
        case None =>
      }
    }
  }

  lemma {:induction false} GroupsAgree(env: Env, checked: Env, groups: seq<Group>)
    requires Checks(env, checked)
    ensures Agree(env, ProviderGroups(checked, FRESH, groups), CoordinatorGroups(env, FRESH, groups))
  {
    if groups != [] {
      var rest := groups[..|groups| - 1];
      GroupsAgree(env, checked, rest);
      var p, c := ProviderGroups(checked, FRESH, rest), CoordinatorGroups(env, FRESH, rest);
      match groups[|groups| - 1] {
        case Sequential(steps) => SequencesAgree(env, checked, p, c, steps);
        case Parallel(steps) => ParallelsAgree(env, checked, p, c, steps);
      }
    }
  }

  // The coordinator makes the calls and comes to the result that the provider makes and comes to where
  // refused outputs fail.
  lemma RefusedOutputsFail(env: Env, checked: Env, groups: seq<Group>)
    requires Checks(env, checked)
    ensures Agree(env, Finish(checked, ProviderGroups(checked, FRESH, groups)),
                  CoordinatorFinish(env, CoordinatorGroups(env, FRESH, groups)))
  {
    GroupsAgree(env, checked, groups);
  }

  // With outputs their schemas accept, both do the same.
  lemma ExecutorsAgree(env: Env, groups: seq<Group>)
    requires SchemaValid(env)
    ensures Agree(env, Finish(env, ProviderGroups(env, FRESH, groups)),
                  CoordinatorFinish(env, CoordinatorGroups(env, FRESH, groups)))
  {
    RefusedOutputsFail(env, env, groups);
  }

  // ---------------------------------------------------------------------
  // No step is rolled back more often than it is defined
  // ---------------------------------------------------------------------

  lemma StepCompletesOnce(env: Env, p: Progress, step: string)
    ensures multiset(ProviderStep(env, p, step).completed) <= multiset(p.completed) + multiset{step}
  {
  }

  lemma {:induction false} SequentialCompletesOnce(env: Env, p: Progress, steps: seq<string>)
    ensures multiset(ProviderSequential(env, p, steps).completed) <= multiset(p.completed) + multiset(steps)
  {
    if steps != [] {
      var rest := steps[..|steps| - 1];
      SequentialCompletesOnce(env, p, rest);
      StepCompletesOnce(env, ProviderSequential(env, p, rest), steps[|steps| - 1]);
      assert steps == rest + [steps[|steps| - 1]];
    }
  }

  lemma {:induction false} GatherCompletesOnce(env: Env, p: Progress, seen: Results, steps: seq<string>)
    ensures multiset(Gather(env, p, Items(env, seen, steps)).completed) <= multiset(p.completed) + multiset(steps)
  {
    if steps != [] {
      var rest := steps[..|steps| - 1];
      GatherCompletesOnce(env, p, seen, rest);
      assert Items(env, seen, steps)[..|steps| - 1] == Items(env, seen, rest);
      assert steps == rest + [steps[|steps| - 1]];
    }
  }

  lemma {:induction false} CompletedOnce(env: Env, groups: seq<Group>)
    ensures multiset(ProviderGroups(env, FRESH, groups).completed) <= multiset(StepsOf(groups))
  {
    if groups != [] {
      var rest := groups[..|groups| - 1];
      CompletedOnce(env, rest);
      var p := ProviderGroups(env, FRESH, rest);
      match groups[|groups| - 1] {
        case Sequential(steps) => SequentialCompletesOnce(env, p, steps);
        case Parallel(steps) =>
          GatherCompletesOnce(env, p.(calls := p.calls + Starts(env, p.results, steps)), p.results, steps);
      }
    }
  }

  // ---------------------------------------------------------------------
  // The coordinator's loops
  // ---------------------------------------------------------------------

  class CoordinatorRun {
    const env: Env
    var stepResults: Results
    var completedSteps: seq<string>
    var calls: seq<Call>

    function Value(): Progress
      reads this
    {
      Progress(stepResults, completedSteps, calls, None)
    }

    constructor (env: Env)
      ensures this.env == env && Value() == FRESH
    {
      this.env := env;
      stepResults, completedSteps, calls := map[], [], [];
    }

    method ExecuteRollbacks()
      modifies this`calls
      ensures calls == old(calls) + CoordinatorRollbacks(env, completedSteps, stepResults)
    {
      var completed := completedSteps;
      assert completed[..|completed|] == completed;
      for i := |completed| downto 0
        invariant calls + CoordinatorRollbacks(env, completed[..i], stepResults)
               == old(calls) + CoordinatorRollbacks(env, completed, stepResults)
      {
        var step := completed[i];
        assert completed[..i + 1][..i] == completed[..i];
        if step in env.handlers && env.handlers[step] { calls := calls + [RolledBack(step, stepResults)]; }
      }
    }

    method SequentialGroup(steps: seq<string>) returns (thrown: Option<Cause>)
      modifies this
      ensures Value().(failure := Thrown(thrown)) == CoordinatorSequential(env, old(Value()), steps)
    {
      for i := 0 to |steps|
        invariant Value() == CoordinatorSequential(env, old(Value()), steps[..i])
      {
        var step := steps[i];
        assert steps[..i + 1][..i] == steps[..i];
        if step !in env.handlers {
          CoordinatorSequentialStops(env, old(Value()), steps, i + 1);
          return Some(NoHandler(step));
        }
        calls := calls + [Ran(step, stepResults)];
        match Checked(env, step, stepResults) {
          case Succeeds(value) =>
            stepResults := stepResults[step := value];
            completedSteps := completedSteps + [step];
          case Fails(error) =>
            ExecuteRollbacks();
            CoordinatorSequentialStops(env, old(Value()), steps, i + 1);
            return Some(StepThrew(step, error));
        }
      }
      assert steps[..|steps|] == steps;
      return None;
    }

    method ParallelGroup(steps: seq<string>) returns (thrown: Option<Cause>)
      modifies this
      ensures Value().(failure := Thrown(thrown)) == CoordinatorParallel(env, old(Value()), steps)
    {
      var seen := stepResults;
      calls := calls + Starts(env, seen, steps);
      ghost var begun := Value();
      var settled := CoordinatorItems(env, seen, steps);
      var firstError: Option<Cause> := None;
      for i := 0 to |settled|
        invariant Value() == CoordinatorGather(begun, settled[..i]) && firstError == FirstFailure(settled[..i])
      {
        assert settled[..i + 1][..i] == settled[..i];
        match settled[i] {
          case Failed(cause) => if firstError.None? { firstError := Some(cause); }
          case Success(step, value) =>
            stepResults := stepResults[step := value];
            completedSteps := completedSteps + [step];
        }
      }
      assert settled[..|settled|] == settled;
      if firstError.Some? { ExecuteRollbacks(); }
      return firstError;
    }

    method Execute(groups: seq<Group>) returns (thrown: Option<Cause>)
      requires Value() == FRESH
      modifies this
      ensures Value().(failure := Thrown(thrown)) == CoordinatorFinish(env, CoordinatorGroups(env, FRESH, groups))
    {
      for i := 0 to |groups|
        invariant Value() == CoordinatorGroups(env, FRESH, groups[..i])
      {
        assert groups[..i + 1][..i] == groups[..i];
        match groups[i] {
          case Sequential(steps) => thrown := SequentialGroup(steps);
          case Parallel(steps) => thrown := ParallelGroup(steps);
        }
        if thrown.Some? {
          CoordinatorGroupsStop(env, FRESH, groups, i + 1);
          return;
        }
      }
      assert groups[..|groups|] == groups;
      calls := calls + [Finished(stepResults)];
      match env.finish(stepResults) {
        case Succeeds(result) =>
          thrown := if env.acceptsResult(result) then None else Some(HandlerThrew("result validation failed"));
        case Fails(error) => thrown := Some(HandlerThrew(error));
      }
    }
  }

  function Thrown(cause: Option<Cause>): Option<Failure> {
    match cause case Some(c) => Some(Failure(c, [])) case None => None
  }

  lemma {:induction false} CoordinatorSequentialStops(env: Env, p: Progress, steps: seq<string>, i: nat)
    requires i <= |steps| && CoordinatorSequential(env, p, steps[..i]).failure.Some?
    ensures CoordinatorSequential(env, p, steps) == CoordinatorSequential(env, p, steps[..i])
  {
    if i < |steps| {
      assert steps[..|steps| - 1][..i] == steps[..i];
      CoordinatorSequentialStops(env, p, steps[..|steps| - 1], i);
    } else {
      assert steps[..i] == steps;
    }
  }

  lemma {:induction false} FailedCoordinatorIsIdle(env: Env, p: Progress, steps: seq<string>)
    requires p.failure.Some?
    ensures CoordinatorSequential(env, p, steps) == p
  {
    if steps != [] { FailedCoordinatorIsIdle(env, p, steps[..|steps| - 1]); }
  }

  lemma {:induction false} CoordinatorGroupsStop(env: Env, p: Progress, groups: seq<Group>, i: nat)
    requires i <= |groups| && CoordinatorGroups(env, p, groups[..i]).failure.Some?
    ensures CoordinatorGroups(env, p, groups) == CoordinatorGroups(env, p, groups[..i])
  {
    if i < |groups| {
      assert groups[..|groups| - 1][..i] == groups[..i];
      CoordinatorGroupsStop(env, p, groups[..|groups| - 1], i);
      if groups[|groups| - 1].Sequential? {
        FailedCoordinatorIsIdle(env, CoordinatorGroups(env, p, groups[..i]), groups[|groups| - 1].steps);
      }
    } else {
      assert groups[..i] == groups;
    }
  }
}
