// Validation of the dependency-injection graph.
module DependencyValidation {
  import opened Graphs

  // Classes can be constructed; symbols and strings only name values provided up front.
  datatype Token = Constructor(name: string) | Symbol(name: string) | Text(name: string)

  type Registry = map<Token, seq<Token>>

  // The edges the cycle search follows: registered constructors to registered constructors.
  function DependencyGraph(registry: Registry): Graph<Token> {
    map t | t in registry && t.Constructor? :: set d | d in registry[t] && d.Constructor? && d in registry
  }

  class CycleDetector {
    const registry: Registry
    var visited: set<Token>
    var recursionStack: set<Token>
    var path: seq<Token>
    var cycles: seq<seq<Token>>
    ghost var order: seq<Token>

    ghost function State(): Search<Token>
      reads this
    {
      Search(visited, recursionStack, path, cycles)
    }

    ghost predicate Inv()
      reads this
    {
      visited <= DependencyGraph(registry).Keys && Consistent(DependencyGraph(registry), State(), order)
    }

    constructor (registry: Registry)
      ensures Inv() && this.registry == registry
      ensures visited == {} && path == [] && recursionStack == {} && cycles == []
    {
      this.registry := registry;
      visited, recursionStack, path, cycles, order := {}, {}, [], [], [];
    }

    method DetectCycleFrom(service: Token)
      requires Inv() && service in DependencyGraph(registry)
      requires path != [] ==> Edge(DependencyGraph(registry), path[|path| - 1], service)
      modifies this
      ensures Inv() && path == old(path) && recursionStack == old(recursionStack)
      ensures old(visited) + {service} <= visited && old(cycles) <= cycles
      ensures service in recursionStack ==> cycles != []
      decreases DependencyGraph(registry).Keys - visited
    {
      ghost var g := DependencyGraph(registry);
      if service in recursionStack {
        var start := IndexOf(path, service);
        CloseCycle(g, State(), order, service, start);
        cycles := cycles + [path[start..] + [service]];
        return;
      }
      if service in visited { return; }
      EnterNode(g, State(), order, service);
      visited, recursionStack, path := visited + {service}, recursionStack + {service}, path + [service];
      var deps := registry[service];
      for i := 0 to |deps|
        invariant Inv() && path == old(path) + [service] && recursionStack == old(recursionStack) + {service}
        invariant old(visited) + {service} <= visited && old(cycles) <= cycles
        invariant cycles == [] ==> forall j :: 0 <= j < i && deps[j] in g ==> deps[j] in visited - recursionStack
      {
        var dep := deps[i];
        if dep.Constructor? && dep in registry {
          assert Edge(g, service, dep);
          DetectCycleFrom(dep);
        }
      }
      LeaveNode(g, State(), order, service);
      order := order + [service];
      path, recursionStack := path[..|path| - 1], recursionStack - {service};
    }

    // Searches from every registered constructor.
    method DetectCycles()
      requires Inv() && visited == {} && path == [] && recursionStack == {} && cycles == []
      modifies this
      ensures forall c :: c in cycles ==> ClosedWalk(DependencyGraph(registry), c)
      ensures cycles == [] <==> Sortable(DependencyGraph(registry))
      ensures cycles == [] <==> !Cyclic(DependencyGraph(registry))
    {
      var todo := registry.Keys;
      while todo != {}
        invariant Inv() && path == [] && recursionStack == {}
        invariant forall t :: t in DependencyGraph(registry) && t !in todo ==> t in visited
      {
        var token :| token in todo;
        todo := todo - {token};
        if token.Constructor? && token !in visited {
          DetectCycleFrom(token);
        }
      }
      SearchDecides(DependencyGraph(registry), State(), order);
    }
  }

  method IndexOf(s: seq<Token>, t: Token) returns (i: nat)
    requires t in s
    ensures i < |s| && s[i] == t && t !in s[..i]
  {
    i := 0;
    while s[i] != t
      invariant i < |s| && t !in s[..i]
      decreases |s| - i
    {
      i := i + 1;
    }
  }

  datatype Problem =
    | MissingDependency(service: Token, dep: Token)
    | MissingParameters(service: Token)
    | CircularDependency(cycle: seq<Token>)
    | MissingPackage(service: Token, package: string)

  // Services whose declaration validation looks at: constructors without an instance.
  predicate Checked(registry: Registry, instances: set<Token>, t: Token) {
    t in registry && t.Constructor? && t !in instances
  }

  // The problems of one service's declaration.
  method CheckService(registry: Registry, service: Token, arity: Token -> nat) returns (problems: seq<Problem>)
    requires service in registry
    ensures forall p :: p in problems <==>
      || (p.MissingDependency? && p.service == service && p.dep in registry[service] && p.dep !in registry)
      || (p.MissingParameters? && p.service == service && |registry[service]| < arity(service))
  {
    problems := [];
    var deps := registry[service];
    for i := 0 to |deps|
      invariant forall p :: p in problems <==>
        p.MissingDependency? && p.service == service && p.dep in deps[..i] && p.dep !in registry
    {
      if deps[i] !in registry {
        problems := problems + [MissingDependency(service, deps[i])];
      }
    }
    if |deps| < arity(service) {
      problems := problems + [MissingParameters(service)];
    }
  }

  method CheckServices(registry: Registry, instances: set<Token>, arity: Token -> nat) returns (problems: seq<Problem>)
    ensures forall p :: p in problems <==>
      || (p.MissingDependency? && Checked(registry, instances, p.service)
          && p.dep in registry[p.service] && p.dep !in registry)
      || (p.MissingParameters? && Checked(registry, instances, p.service) && |registry[p.service]| < arity(p.service))
  {
    problems := [];
    var todo := registry.Keys;
    while todo != {}
      invariant todo <= registry.Keys
      invariant forall p :: p in problems <==>
        || (p.MissingDependency? && p.service !in todo && Checked(registry, instances, p.service)
            && p.dep in registry[p.service] && p.dep !in registry)
        || (p.MissingParameters? && p.service !in todo && Checked(registry, instances, p.service)
            && |registry[p.service]| < arity(p.service))
    {
      var token :| token in todo;
      todo := todo - {token};
      if token.Constructor? && token !in instances {
        var found := CheckService(registry, token, arity);
        problems := problems + found;
      }
    }
  }

  method CheckCycles(registry: Registry) returns (problems: seq<Problem>)
    ensures forall p :: p in problems ==> p.CircularDependency? && ClosedWalk(DependencyGraph(registry), p.cycle)
    ensures problems == [] <==> Sortable(DependencyGraph(registry))
  {
    var detector := new CycleDetector(registry);
    detector.DetectCycles();
    var cycles := detector.cycles;
    problems := [];
    for i := 0 to |cycles|
      invariant |problems| == i && forall j :: 0 <= j < i ==> problems[j] == CircularDependency(cycles[j])
    {
      problems := problems + [CircularDependency(cycles[i])];
    }
  }

  method CheckPackages(externalDeps: map<Token, seq<string>>, installed: string -> bool)
    returns (problems: seq<Problem>)
    ensures forall p :: p in problems <==>
      p.MissingPackage? && p.service in externalDeps && p.package in externalDeps[p.service] && !installed(p.package)
  {
    problems := [];
    var services := externalDeps.Keys;
    while services != {}
      invariant services <= externalDeps.Keys
      invariant forall p :: p in problems <==>
        p.MissingPackage? && p.service in externalDeps && p.service !in services
        && p.package in externalDeps[p.service] && !installed(p.package)
    {
      var service :| service in services;
      services := services - {service};
      var packages := externalDeps[service];
      var before := problems;
      for i := 0 to |packages|
        invariant forall p :: p in problems <==>
          || p in before
          || (p.MissingPackage? && p.service == service && p.package in packages[..i] && !installed(p.package))
      {
        if !installed(packages[i]) { problems := problems + [MissingPackage(service, packages[i])]; }
      }
    }
  }

  // What validation demands of a registry.
  ghost predicate Passes(registry: Registry, instances: set<Token>, externalDeps: map<Token, seq<string>>,
                         arity: Token -> nat, installed: string -> bool) {
    && (forall s, d :: Checked(registry, instances, s) && d in registry[s] ==> d in registry)
    && (forall s :: Checked(registry, instances, s) ==> arity(s) <= |registry[s]|)
    && Sortable(DependencyGraph(registry))
    && (forall s, p :: s in externalDeps && p in externalDeps[s] ==> installed(p))
  }

  // Everything missing is reported and nothing else; every reported cycle is one, and there is one
  // exactly when the graph cannot be sorted.
  ghost predicate Reported(registry: Registry, instances: set<Token>, externalDeps: map<Token, seq<string>>,
                           arity: Token -> nat, installed: string -> bool, problems: seq<Problem>) {
    && (forall s, d :: MissingDependency(s, d) in problems <==>
          Checked(registry, instances, s) && d in registry[s] && d !in registry)
    && (forall s :: MissingParameters(s) in problems <==>
          Checked(registry, instances, s) && |registry[s]| < arity(s))
    && (forall s, p :: MissingPackage(s, p) in problems <==>
          s in externalDeps && p in externalDeps[s] && !installed(p))
    && (forall c :: CircularDependency(c) in problems ==> ClosedWalk(DependencyGraph(registry), c))
    && ((exists c :: CircularDependency(c) in problems) <==> !Sortable(DependencyGraph(registry)))
  }

  // Startup validation; it passes when no problem is reported.
  method Validate(registry: Registry, instances: set<Token>, externalDeps: map<Token, seq<string>>,
                  arity: Token -> nat, installed: string -> bool) returns (problems: seq<Problem>)
    ensures problems == [] <==> Passes(registry, instances, externalDeps, arity, installed)
    ensures Reported(registry, instances, externalDeps, arity, installed, problems)
  {
    var a := CheckServices(registry, instances, arity);
    var b := CheckCycles(registry);
    var c := CheckPackages(externalDeps, installed);
    problems := a + b + c;
    if b != [] { assert b[0] in b && CircularDependency(b[0].cycle) in problems; }
    EmptyWhenReported(registry, instances, externalDeps, arity, installed, problems);
  }

  lemma EmptyWhenReported(registry: Registry, instances: set<Token>, externalDeps: map<Token, seq<string>>,
                          arity: Token -> nat, installed: string -> bool, problems: seq<Problem>)
    requires Reported(registry, instances, externalDeps, arity, installed, problems)
    ensures problems == [] <==> Passes(registry, instances, externalDeps, arity, installed)
  {
    if problems != [] {
      var p := problems[0];
      assert p in problems;
      match p
      case MissingDependency(s, d) => assert Checked(registry, instances, s);
      case MissingParameters(s) => assert Checked(registry, instances, s);
      case MissingPackage(s, q) => assert s in externalDeps;
      case CircularDependency(c) => assert !Sortable(DependencyGraph(registry));
    }
    if problems == [] {
      forall s, d | Checked(registry, instances, s) && d in registry[s] ensures d in registry {
        assert MissingDependency(s, d) !in problems;
      }
      forall s | Checked(registry, instances, s) ensures arity(s) <= |registry[s]| {
        assert MissingParameters(s) !in problems;
      }
      forall s, q | s in externalDeps && q in externalDeps[s] ensures installed(q) {
        assert MissingPackage(s, q) !in problems;
      }
    }
  }
}
