// The asynchronous pool that runs the steps of a parallel group with a concurrency limit.
module WorkflowPool {

  function Max(a: int, b: int): int { if a >= b then a else b }

  // `started` items have been started, those in `running` are under way, `results` holds the rest.
  // While `waiting`, the loop awaits a completion before starting the next item.
  datatype Pool<R> = Pool(started: nat, running: set<nat>, results: map<nat, R>, waiting: bool)

  datatype Event = Start | Complete(i: nat)

  predicate Enabled<R>(n: nat, p: Pool<R>, e: Event) {
    match e
    case Start => p.started < n && !p.waiting
    case Complete(i) => i in p.running
  }

  function Step<R>(n: nat, limit: int, exec: nat -> R, p: Pool<R>, e: Event): Pool<R>
    requires Enabled(n, p, e)
  {
    match e
    case Start =>
      var running := p.running + {p.started};
      Pool(p.started + 1, running, p.results, |running| >= limit)
    case Complete(i) => Pool(p.started, p.running - {i}, p.results[i := exec(i)], false)
  }

  function Initial<R>(): Pool<R> { Pool(0, {}, map[], false) }

  predicate Legal<R>(n: nat, limit: int, exec: nat -> R, p: Pool<R>, events: seq<Event>)
    decreases |events|
  {
    events == [] || (Enabled(n, p, events[0]) && Legal(n, limit, exec, Step(n, limit, exec, p, events[0]), events[1..]))
  }

  function Run<R>(n: nat, limit: int, exec: nat -> R, p: Pool<R>, events: seq<Event>): Pool<R>
    requires Legal(n, limit, exec, p, events)
    decreases |events|
  {
    if events == [] then p else Run(n, limit, exec, Step(n, limit, exec, p, events[0]), events[1..])
  }

  predicate Finished<R>(n: nat, p: Pool<R>) { p.started == n && p.running == {} }

  // Items below `n` are either running or settled, never both.
  ghost predicate Split(n: nat, running: set<nat>, settled: set<nat>) {
    (forall i :: i in running || i in settled <==> 0 <= i < n) && running !! settled
  }

  ghost predicate Inv<R>(n: nat, limit: int, exec: nat -> R, p: Pool<R>) {
    && p.started <= n && Split(p.started, p.running, p.results.Keys)
    && (forall i :: i in p.results ==> p.results[i] == exec(i))
    && |p.running| <= Max(1, limit)
    && (p.waiting ==> p.running != {})
    && (!p.waiting ==> |p.running| < Max(1, limit))
  }

  lemma StartKeepsInv<R>(n: nat, limit: int, exec: nat -> R, p: Pool<R>)
    requires Inv(n, limit, exec, p) && Enabled(n, p, Start)
    ensures var p' := Step(n, limit, exec, p, Start); Inv(n, limit, exec, p') && |p'.results| == |p.results|
  {
    assert p.started !in p.running;
  }

  lemma CompleteKeepsInv<R>(n: nat, limit: int, exec: nat -> R, p: Pool<R>, i: nat)
    requires Inv(n, limit, exec, p) && Enabled(n, p, Complete(i))
    ensures var p' := Step(n, limit, exec, p, Complete(i)); Inv(n, limit, exec, p') && |p'.results| == |p.results| + 1
  {
    var p' := Step(n, limit, exec, p, Complete(i));
    assert p'.results.Keys == p.results.Keys + {i};
    assert |p.running - {i}| == |p.running| - 1;
    assert Split(p'.started, p'.running, p'.results.Keys);
  }

  lemma {:induction false} RunKeepsInv<R>(n: nat, limit: int, exec: nat -> R, p: Pool<R>, events: seq<Event>)
    requires Inv(n, limit, exec, p) && Legal(n, limit, exec, p, events)
    ensures Inv(n, limit, exec, Run(n, limit, exec, p, events))
    ensures var p' := Run(n, limit, exec, p, events); p'.started + |p'.results| == p.started + |p.results| + |events|
    decreases |events|
  {
    if events != [] {
      match events[0] {
        case Start => StartKeepsInv(n, limit, exec, p);
        case Complete(i) => CompleteKeepsInv(n, limit, exec, p, i);
      }
      RunKeepsInv(n, limit, exec, Step(n, limit, exec, p, events[0]), events[1..]);
    }
  }

  lemma {:induction false} IndexCount(n: nat, s: set<nat>)
    requires forall i :: i in s ==> i < n
    ensures |s| <= n
    ensures (forall i :: 0 <= i < n ==> i in s) ==> |s| == n
  {
    if n > 0 {
      IndexCount(n - 1, s - {n - 1});
      if n - 1 in s { assert |s - {n - 1}| == |s| - 1; } else { assert s - {n - 1} == s; }
    }
  }

  // However completions are ordered, a run keeps the limit, never gets stuck, takes at most two events
  // per item, and when it can go no further has every item's own result at its own index.
  lemma EveryOrderGivesTheSameResults<R>(n: nat, limit: int, exec: nat -> R, events: seq<Event>)
    requires Legal(n, limit, exec, Initial(), events)
    ensures var p := Run(n, limit, exec, Initial(), events);
      && |p.running| <= Max(1, limit)
      && |events| <= 2 * n
      && (Finished(n, p) <==> forall e :: !Enabled(n, p, e))
      && (Finished(n, p) <==> |events| == 2 * n)
      && (Finished(n, p) ==> p.results == map i: nat | 0 <= i < n :: exec(i))
  {
    var p := Run(n, limit, exec, Initial(), events);
    assert Inv(n, limit, exec, Initial<R>());
    RunKeepsInv(n, limit, exec, Initial(), events);
    IndexCount(p.started, p.results.Keys);
    assert |p.results.Keys| == |p.results|;
    if Finished(n, p) {
      assert forall e :: !Enabled(n, p, e);
    } else if p.running != {} {
      var i :| i in p.running;
      assert Enabled(n, p, Complete(i));
      IndexCount(p.started, p.results.Keys + {i});
      assert |p.results.Keys + {i}| == |p.results.Keys| + 1;
    } else {
      assert Enabled(n, p, Start);
    }
  }

  // The loop itself: starts items in order and, at the limit, awaits the completion of some of the
  // items under way, in whatever order they complete. `peak` is the most that ever ran at once.
  method ExecuteWithConcurrencyLimit<T, R>(items: seq<T>, executor: T -> R, limit: int)
    returns (results: seq<R>, peak: nat)
    ensures results == seq(|items|, i requires 0 <= i < |items| => executor(items[i]))
    ensures peak <= Max(1, limit) && (items != [] ==> peak > 0)
  {
    var settled: map<nat, R> := map[];
    var executing: set<nat> := {};
    peak := 0;
    for index := 0 to |items|
      invariant Split(index, executing, settled.Keys) && Right(items, executor, settled)
      invariant |executing| < Max(1, limit)
      invariant peak <= Max(1, limit) && (index > 0 ==> peak > 0)
    {
      executing := executing + {index};
      peak := Max(peak, |executing|);
      if |executing| >= limit {
        executing, settled := AwaitSome(items, executor, executing, settled, index + 1);
      }
    }
    while executing != {}
      invariant Split(|items|, executing, settled.Keys) && Right(items, executor, settled)
      decreases |executing|
    {
      executing, settled := AwaitSome(items, executor, executing, settled, |items|);
    }
    results := seq(|items|, i requires 0 <= i < |items| => assert i in settled; settled[i]);
  }

  ghost predicate Right<T, R>(items: seq<T>, executor: T -> R, settled: map<nat, R>) {
    forall i :: i in settled ==> i < |items| && settled[i] == executor(items[i])
  }

  // An item under way completes.
  method AwaitOne<T, R>(items: seq<T>, executor: T -> R, executing: set<nat>, settled: map<nat, R>, ghost started: nat)
    returns (executing': set<nat>, settled': map<nat, R>)
    requires executing != {} && started <= |items|
    requires Split(started, executing, settled.Keys) && Right(items, executor, settled)
    ensures |executing'| == |executing| - 1
    ensures Split(started, executing', settled'.Keys) && Right(items, executor, settled')
  {
    var i :| i in executing;
    assert i < started;
    executing', settled' := executing - {i}, settled[i := executor(items[i])];
  }

  // One or more of the items under way complete, in any order.
  method AwaitSome<T, R>(items: seq<T>, executor: T -> R, executing: set<nat>, settled: map<nat, R>, ghost started: nat)
    returns (executing': set<nat>, settled': map<nat, R>)
    requires executing != {} && started <= |items|
    requires Split(started, executing, settled.Keys) && Right(items, executor, settled)
    ensures |executing'| < |executing|
    ensures Split(started, executing', settled'.Keys) && Right(items, executor, settled')
  {
    executing', settled' := AwaitOne(items, executor, executing, settled, started);
    var more := *;
    while more && executing' != {}
      invariant |executing'| < |executing|
      invariant Split(started, executing', settled'.Keys) && Right(items, executor, settled')
      decreases |executing'|
    {
      executing', settled' := AwaitOne(items, executor, executing', settled', started);
      more := *;
    }
  }
}
