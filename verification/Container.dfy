// The dependency-injection container: recursive, synchronous resolution of singletons.
module DependencyContainer {
  import opened Options
  import opened Graphs
  import opened DependencyValidation

  datatype Instance = Provided(id: nat) | Built(service: Token, deps: seq<Instance>)

  datatype Behaviour = Constructs | Throws | ReturnsPromise

  datatype Failure =
    | TokenNotRegistered
    | ServiceNotRegistered
    | CircularDependency
    | ConstructorThrew
    | AsyncConstructor

  datatype Result = Ok(instance: Instance) | Err(failure: Failure)

  datatype Resolved = AllOk(instances: seq<Instance>) | Failed(failure: Failure)

  class Container {
    const behaviour: Token -> Behaviour
    var instances: map<Token, Instance>
    var registry: Registry
    var resolving: set<Token>
    // History: services constructed so far, oldest first, and tokens given as instances.
    ghost var built: seq<Token>
    ghost var given: set<Token>

    ghost predicate Inv()
      reads this
    {
      BuiltInOrder(registry, instances.Keys, built, given) && Wired(registry, instances, built, given)
    }

    // No service is constructed twice.
    ghost predicate BuiltOnce()
      reads this
    {
      NoDuplicates(built) && forall t :: t in built ==> t in instances
    }

    // Whatever has an instance has instances of all its dependencies.
    ghost predicate Closed()
      reads this
    {
      forall t, d :: t in instances && t in registry && d in registry[t] ==> d in instances
    }

    // Symbols and strings are registered together with their value.
    ghost predicate TokensProvided()
      reads this
    {
      forall t :: t in registry && !t.Constructor? ==> t in instances
    }

    constructor (behaviour: Token -> Behaviour)
      ensures Inv() && BuiltOnce() && Closed() && TokensProvided()
      ensures registry == map[] && instances == map[] && resolving == {}
      ensures this.behaviour == behaviour && built == [] && given == {}
    {
      this.behaviour := behaviour;
      instances, registry, resolving, built, given := map[], map[], {}, [], {};
    }

    method Register(service: Token, deps: seq<Token>)
      requires service.Constructor?
      modifies this`registry
      ensures registry == old(registry)[service := deps]
      ensures old(Inv()) ==> (Inv() <==> old(Redeclarable(registry, instances, built, given, service, deps)))
      ensures old(Closed()) ==> (Closed() <==> service !in instances || forall d :: d in deps ==> d in instances)
      ensures old(BuiltOnce()) ==> BuiltOnce()
      ensures old(TokensProvided()) ==> TokensProvided()
    {
      RedeclaringIsExact(registry, instances, built, given, service, deps);
      registry := registry[service := deps];
    }

    method RegisterInstance(token: Token, instance: Instance)
      modifies this`registry, this`instances, this`given
      ensures registry == old(registry)[token := []] && instances == old(instances)[token := instance]
      ensures given == old(given) + {token}
      ensures old(Inv()) ==> (Inv() <==> old(Replaceable(registry, instances, built, given, token, instance)))
      ensures old(Closed()) ==> Closed()
      ensures old(BuiltOnce()) ==> BuiltOnce()
      ensures old(TokensProvided()) ==> TokensProvided()
    {
      ReplacingIsExact(registry, instances, built, given, token, instance);
      registry := registry[token := []];
      instances := instances[token := instance];
      given := given + {token};
    }

    ghost predicate Ready(order: seq<Token>, token: Token)
      reads this
    {
      ReadyIn(registry, instances.Keys, resolving, behaviour, order, token)
    }

    // Resolves the dependencies of the service being resolved, in order.
    method ResolveAll(deps: seq<Token>, ghost order: seq<Token>) returns (r: Resolved)
      modifies this`instances, this`resolving, this`built
      ensures old(Inv()) ==> Inv()
      ensures old(BuiltOnce()) ==> BuiltOnce()
      ensures old(Closed()) ==> Closed()
      ensures resolving == old(resolving)
      ensures Grown(registry, old(instances), instances) && old(built) <= built
      ensures forall t :: t in resolving && t !in old(instances) ==> t !in instances
      ensures r.AllOk? ==> Collected(instances, deps, r.instances)
      ensures AllReady(registry, old(instances.Keys), resolving, behaviour, order, deps) ==> r.AllOk?
      decreases registry.Keys - resolving, 1
    {
      var resolved: seq<Instance> := [];
      for i := 0 to |deps|
        invariant old(Inv()) ==> Inv()
        invariant old(BuiltOnce()) ==> BuiltOnce()
        invariant old(Closed()) ==> Closed()
        invariant resolving == old(resolving)
        invariant Grown(registry, old(instances), instances) && old(built) <= built
        invariant forall t :: t in resolving && t !in old(instances) ==> t !in instances
        invariant Collected(instances, deps[..i], resolved)
      {
        ReadinessGrows(registry, old(instances.Keys), instances.Keys, resolving, behaviour, order, deps, i);
        ghost var before := instances;
        var dep := ResolveInternal(deps[i], order);
        GrownTwice(registry, old(instances), before, instances);
        if dep.Err? { return Failed(dep.failure); }
        CollectNext(registry, before, instances, deps, i, resolved, dep.instance);
        resolved := resolved + [dep.instance];
      }
      assert deps[..|deps|] == deps;
      return AllOk(resolved);
    }

    // Calls the constructor of a service with its resolved dependencies.
    method Construct(token: Token, arguments: seq<Instance>) returns (r: Result)
      requires token in registry && token !in instances && Collected(instances, registry[token], arguments)
      modifies this`instances, this`built
      ensures old(Inv()) ==> Inv()
      ensures old(BuiltOnce()) ==> BuiltOnce()
      ensures old(Closed()) ==> Closed()
      ensures r.Ok? <==> behaviour(token) == Constructs
      ensures r.Ok? ==> r.instance == Built(token, arguments)
      ensures r.Ok? ==> instances == old(instances)[token := r.instance] && built == old(built) + [token]
      ensures r.Err? ==> instances == old(instances) && built == old(built)
      ensures Grown(registry, old(instances), instances)
    {
      match behaviour(token) {
        case Throws => r := Err(ConstructorThrew);
        case ReturnsPromise => r := Err(AsyncConstructor);
        case Constructs =>
          if Inv() { BuildNext(registry, instances, built, given, token, arguments); }
          r := Ok(Built(token, arguments));
          instances := instances[token := r.instance];
          built := built + [token];
      }
    }

    method ResolveInternal(token: Token, ghost order: seq<Token>) returns (r: Result)
      modifies this`instances, this`resolving, this`built
      ensures old(Inv()) ==> Inv()
      ensures old(BuiltOnce()) ==> BuiltOnce()
      ensures old(Closed()) ==> Closed()
      ensures resolving == old(resolving)
      ensures Grown(registry, old(instances), instances) && old(built) <= built
      ensures forall t :: t in resolving && t !in old(instances) ==> t !in instances
      ensures r.Ok? ==> token in instances && instances[token] == r.instance
      ensures token in old(instances) ==> r.Ok? && instances == old(instances)
      ensures token !in old(instances) && !token.Constructor? ==>
        r == Err(TokenNotRegistered) && instances == old(instances)
      ensures token !in old(instances) && token.Constructor? && token in resolving ==>
        r == Err(Failure.CircularDependency) && instances == old(instances)
      ensures token !in old(instances) && token.Constructor? && token !in resolving && token !in registry ==>
        r == Err(ServiceNotRegistered) && instances == old(instances)
      ensures token !in old(instances) && behaviour(token) != Constructs ==> r.Err?
      ensures old(Ready(order, token)) ==> r.Ok?
      decreases registry.Keys - resolving, 0
    {
      if token in instances { return Ok(instances[token]); }
      if !token.Constructor? { return Err(TokenNotRegistered); }
      if Ready(order, token) {
        NotBeingResolved(registry, instances.Keys, resolving, behaviour, order, token);
      }
      if token in resolving { return Err(Failure.CircularDependency); }
      if token !in registry { return Err(ServiceNotRegistered); }
      var deps := registry[token];
      if Ready(order, token) {
        DependenciesAreReady(registry, instances.Keys, resolving, behaviour, order, token);
      }
      resolving := resolving + {token};
      var resolved := ResolveAll(deps, order);
      ghost var between := instances;
      match resolved {
        case Failed(failure) => r := Err(failure);
        case AllOk(arguments) =>
          r := Construct(token, arguments);
          GrownTwice(registry, old(instances), between, instances);
      }
      resolving := resolving - {token};
    }

    // Startup validation of this container's graph.
    method Validate(externalDeps: map<Token, seq<string>>, arity: Token -> nat, installed: string -> bool)
      returns (problems: seq<Problem>)
      ensures problems == [] <==> Passes(registry, instances.Keys, externalDeps, arity, installed)
      ensures Reported(registry, instances.Keys, externalDeps, arity, installed, problems)
      ensures problems == [] && TokensProvided() && (forall t :: t in registry ==> behaviour(t) == Constructs) ==>
        exists order :: Validated(registry, instances.Keys, behaviour, order)
    {
      problems := DependencyValidation.Validate(registry, instances.Keys, externalDeps, arity, installed);
      if problems == [] && TokensProvided() && forall t :: t in registry ==> behaviour(t) == Constructs {
        ghost var order :| Topological(DependencyGraph(registry), order);
        assert Validated(registry, instances.Keys, behaviour, order);
      }
    }

    // Resolution at the top level; on a validated graph with nothing being resolved around it, it
    // succeeds for every registered token.
    method Resolve(token: Token, ghost order: seq<Token>) returns (r: Result)
      modifies this`instances, this`resolving, this`built
      ensures old(Inv()) ==> Inv()
      ensures old(BuiltOnce()) ==> BuiltOnce()
      ensures old(Closed()) ==> Closed()
      ensures resolving == old(resolving)
      ensures Grown(registry, old(instances), instances) && old(built) <= built
      ensures r.Ok? ==> token in instances && instances[token] == r.instance
      ensures token !in old(instances) && !token.Constructor? ==>
        r == Err(TokenNotRegistered) && instances == old(instances)
      ensures token !in old(instances) && token.Constructor? && token in resolving ==>
        r == Err(Failure.CircularDependency) && instances == old(instances)
      ensures token !in old(instances) && token.Constructor? && token !in resolving && token !in registry ==>
        r == Err(ServiceNotRegistered) && instances == old(instances)
      ensures resolving == {} && old(Validated(registry, instances.Keys, behaviour, order)) ==>
        && Validated(registry, instances.Keys, behaviour, order)
        && (token in registry ==> r.Ok?)
    {
      r := ResolveInternal(token, order);
    }
  }

  // Instances are kept, and each new one is a registered service built from the very instances of its
  // dependencies.
  ghost predicate Grown(registry: Registry, before: map<Token, Instance>, after: map<Token, Instance>) {
    && (forall t :: t in before ==> t in after && after[t] == before[t])
    && forall t :: t in after && t !in before ==>
         t in registry && after[t].Built? && after[t].service == t && Collected(after, registry[t], after[t].deps)
  }

  lemma GrownTwice(registry: Registry, before: map<Token, Instance>, between: map<Token, Instance>,
                   after: map<Token, Instance>)
    requires Grown(registry, before, between) && Grown(registry, between, after)
    ensures Grown(registry, before, after)
  {
    forall t | t in after && t !in before
      ensures t in registry && after[t].Built? && after[t].service == t && Collected(after, registry[t], after[t].deps)
    {
      if t in between { assert Collected(between, registry[t], between[t].deps); }
    }
  }

  // The instances of `deps`, in order.
  ghost predicate Collected(instances: map<Token, Instance>, deps: seq<Token>, resolved: seq<Instance>) {
    && |resolved| == |deps|
    && forall j :: 0 <= j < |deps| ==> deps[j] in instances && instances[deps[j]] == resolved[j]
  }

  lemma CollectNext(registry: Registry, before: map<Token, Instance>, after: map<Token, Instance>, deps: seq<Token>,
                    i: nat, resolved: seq<Instance>, next: Instance)
    requires i < |deps| && Collected(before, deps[..i], resolved) && Grown(registry, before, after)
    requires deps[i] in after && after[deps[i]] == next
    ensures Collected(after, deps[..i + 1], resolved + [next])
  {
  }

  // Every instance was given or built, and each service was built once, after all its dependencies.
  ghost predicate BuiltInOrder(registry: Registry, instances: set<Token>, built: seq<Token>, given: set<Token>) {
    && (forall t :: t in instances <==> t in given || t in built)
    && NoDuplicates(built)
    && (forall k :: 0 <= k < |built| ==> built[k] in registry)
    && (forall k, d :: 0 <= k < |built| && d in registry[built[k]] ==> d in given || d in built[..k])
  }

  // Every built service holds the very instances of its dependencies, in declaration order.
  ghost predicate Wired(registry: Registry, instances: map<Token, Instance>, built: seq<Token>, given: set<Token>) {
    forall t :: t in built && t !in given && t in instances && t in registry ==>
      && instances[t].Built? && instances[t].service == t && |instances[t].deps| == |registry[t]|
      && forall j :: 0 <= j < |registry[t]| ==>
           registry[t][j] in instances && instances[t].deps[j] == instances[registry[t][j]]
  }

  lemma BuildNext(registry: Registry, instances: map<Token, Instance>, built: seq<Token>, given: set<Token>,
                  token: Token, resolved: seq<Instance>)
    requires BuiltInOrder(registry, instances.Keys, built, given) && Wired(registry, instances, built, given)
    requires token in registry && token !in instances && Collected(instances, registry[token], resolved)
    ensures BuiltInOrder(registry, instances.Keys + {token}, built + [token], given)
    ensures Wired(registry, instances[token := Built(token, resolved)], built + [token], given)
  {
    var built' := built + [token];
    forall k, d | 0 <= k < |built'| && d in registry[built'[k]] ensures d in given || d in built'[..k] {
      if k < |built| { assert built'[..k] == built[..k]; } else { assert built'[..k] == built; }
    }
  }

  // Redeclaring a built service is harmless when the dependencies now listed were there before it was
  // built, and are the ones it holds unless a value was given for it.
  ghost predicate Redeclarable(registry: Registry, instances: map<Token, Instance>, built: seq<Token>,
                               given: set<Token>, service: Token, deps: seq<Token>) {
    service in built && service in registry && service in instances ==>
      && (forall k, d :: 0 <= k < |built| && built[k] == service && d in deps ==> d in given || d in built[..k])
      && (service !in given ==>
            && |deps| == |registry[service]|
            && forall j :: 0 <= j < |deps| ==>
                 deps[j] in instances && registry[service][j] in instances
                 && instances[deps[j]] == instances[registry[service][j]])
  }

  // Giving a value is harmless when it is the instance that built services depending on it already hold.
  ghost predicate Replaceable(registry: Registry, instances: map<Token, Instance>, built: seq<Token>, given: set<Token>,
                              token: Token, instance: Instance) {
    forall t :: t in built && t !in given && t != token && t in registry && token in registry[t] ==>
      token in instances && instances[token] == instance
  }

  // A declaration keeps the construction order and the wiring exactly when it is redeclarable.
  lemma RedeclaringIsExact(registry: Registry, instances: map<Token, Instance>, built: seq<Token>, given: set<Token>,
                           service: Token, deps: seq<Token>)
    ensures BuiltInOrder(registry, instances.Keys, built, given) && Wired(registry, instances, built, given) ==>
      var registry' := registry[service := deps];
      var kept := BuiltInOrder(registry', instances.Keys, built, given) && Wired(registry', instances, built, given);
      kept <==> Redeclarable(registry, instances, built, given, service, deps)
  {
  }

  // A given value keeps them exactly when it is replaceable.
  lemma ReplacingIsExact(registry: Registry, instances: map<Token, Instance>, built: seq<Token>, given: set<Token>,
                         token: Token, instance: Instance)
    ensures BuiltInOrder(registry, instances.Keys, built, given) && Wired(registry, instances, built, given) ==>
      var registry', instances', given' := registry[token := []], instances[token := instance], given + {token};
      var kept := BuiltInOrder(registry', instances'.Keys, built, given') &&
        Wired(registry', instances', built, given');
      kept <==> Replaceable(registry, instances, built, given, token, instance)
  {
  }

  // What a passed validation promises to resolution: the graph is sorted, dependencies are
  // registered, values are present and constructors are synchronous and do not throw.
  ghost predicate Validated(registry: Registry, instances: set<Token>, behaviour: Token -> Behaviour,
                            order: seq<Token>) {
    && Topological(DependencyGraph(registry), order)
    && (forall s, d :: Checked(registry, instances, s) && d in registry[s] ==> d in registry)
    && (forall t :: t in registry && !t.Constructor? ==> t in instances)
    && (forall t :: t in registry ==> behaviour(t) == Constructs)
  }

  // Nothing being resolved comes at or before `token` in the order.
  ghost predicate Ahead(registry: Registry, resolving: set<Token>, order: seq<Token>, token: Token) {
    && token in registry
    && (token.Constructor? ==>
          forall k, u :: 0 <= k < |order| && order[k] == token && u in resolving ==> u !in order[..k + 1])
  }

  ghost predicate ReadyIn(registry: Registry, instances: set<Token>, resolving: set<Token>,
                          behaviour: Token -> Behaviour, order: seq<Token>, token: Token) {
    Validated(registry, instances, behaviour, order) && Ahead(registry, resolving, order, token)
  }

  ghost predicate AllReady(registry: Registry, instances: set<Token>, resolving: set<Token>,
                           behaviour: Token -> Behaviour, order: seq<Token>, tokens: seq<Token>) {
    forall j :: 0 <= j < |tokens| ==> ReadyIn(registry, instances, resolving, behaviour, order, tokens[j])
  }

  lemma ReadinessGrows(registry: Registry, before: set<Token>, after: set<Token>, resolving: set<Token>,
                       behaviour: Token -> Behaviour, order: seq<Token>, tokens: seq<Token>, j: nat)
    requires before <= after && j < |tokens|
    ensures AllReady(registry, before, resolving, behaviour, order, tokens) ==>
      ReadyIn(registry, after, resolving, behaviour, order, tokens[j])
  {
    if AllReady(registry, before, resolving, behaviour, order, tokens) {
      assert ReadyIn(registry, before, resolving, behaviour, order, tokens[j]);
    }
  }

  lemma DependenciesAreReady(registry: Registry, instances: set<Token>, resolving: set<Token>,
                             behaviour: Token -> Behaviour, order: seq<Token>, token: Token)
    requires ReadyIn(registry, instances, resolving, behaviour, order, token) && Checked(registry, instances, token)
    ensures AllReady(registry, instances, resolving + {token}, behaviour, order, registry[token])
  {
    forall dep | dep in registry[token] ensures Ahead(registry, resolving + {token}, order, dep) {
      DependencyIsAhead(registry, instances, resolving, behaviour, order, token, dep);
    }
  }

  lemma DependencyIsAhead(registry: Registry, instances: set<Token>, resolving: set<Token>,
                          behaviour: Token -> Behaviour, order: seq<Token>, token: Token, dep: Token)
    requires ReadyIn(registry, instances, resolving, behaviour, order, token)
    requires Checked(registry, instances, token) && dep in registry[token]
    ensures Ahead(registry, resolving + {token}, order, dep)
  {
    var g := DependencyGraph(registry);
    assert token in g;
    var k :| 0 <= k < |order| && order[k] == token;
    if dep.Constructor? {
      assert Edge(g, token, dep);
      var i' :| 0 <= i' < k && order[i'] == dep;
      forall i, u | 0 <= i < |order| && order[i] == dep && u in resolving + {token} ensures u !in order[..i + 1] {
        assert i == i';
        assert order[..i + 1] <= order[..k];
        assert token !in order[..k];
        assert u in resolving ==> u !in order[..k + 1];
        assert order[..k] <= order[..k + 1];
      }
    }
  }

  lemma NotBeingResolved(registry: Registry, instances: set<Token>, resolving: set<Token>,
                         behaviour: Token -> Behaviour, order: seq<Token>, token: Token)
    requires ReadyIn(registry, instances, resolving, behaviour, order, token) && token.Constructor?
    ensures token in registry && token !in resolving
  {
    assert token in DependencyGraph(registry);
    var k :| 0 <= k < |order| && order[k] == token;
    assert token in order[..k + 1];
  }

  // The dependencies that resolution has to construct itself.
  function Ungiven(registry: Registry, given: set<Token>): Graph<Token> {
    map t | t in registry && t !in given :: set d | d in registry[t] && d !in given
  }

  // No order of resolutions ever builds a service on a cycle of services that were not given.
  lemma CyclesAreNeverBuilt(registry: Registry, instances: set<Token>, built: seq<Token>, given: set<Token>,
                            p: seq<Token>)
    requires BuiltInOrder(registry, instances, built, given)
    requires ClosedWalk(Ungiven(registry, given), p)
    ensures p[0] !in instances
  {
    var g := Ungiven(registry, given);
    assert Edge(g, p[0], p[1]);
    if p[0] in built {
      var k :| 0 <= k < |built| && built[k] == p[0];
      WalkDescends(g, built, p, k);
    }
  }

  // ---------------------------------------------------------------------
  // Calls after which instances no longer match their declarations
  // ---------------------------------------------------------------------

  const SERVICE := Constructor("A")
  const DEPENDENCY := Constructor("B")

  lemma PairIsValidated(registry: Registry, instances: set<Token>, behaviour: Token -> Behaviour)
    requires registry == map[SERVICE := [DEPENDENCY], DEPENDENCY := []]
    requires behaviour(SERVICE) == behaviour(DEPENDENCY) == Constructs
    ensures Validated(registry, instances, behaviour, [DEPENDENCY, SERVICE])
  {
    assert "A"[0] != "B"[0];
    var order := [DEPENDENCY, SERVICE];
    assert order[..0] == [] && order[..1] == [DEPENDENCY] && DEPENDENCY in [DEPENDENCY];
    assert SERVICE in order && DEPENDENCY in order;
  }

  lemma SingleIsValidated(registry: Registry, instances: set<Token>, behaviour: Token -> Behaviour)
    requires registry == map[SERVICE := []] && behaviour(SERVICE) == Constructs
    ensures Validated(registry, instances, behaviour, [SERVICE])
  {
  }

  // A value given for a dependency of a built service leaves that service with another instance.
  method ReplacedInstance(behaviour: Token -> Behaviour, x: Instance, y: Instance) returns (c: Container)
    requires behaviour(SERVICE) == behaviour(DEPENDENCY) == Constructs && x != y
    ensures !c.Inv()
  {
    c := new Container(behaviour);
    c.RegisterInstance(DEPENDENCY, x);
    c.Register(SERVICE, [DEPENDENCY]);
    PairIsValidated(c.registry, c.instances.Keys, behaviour);
    var r := c.Resolve(SERVICE, [DEPENDENCY, SERVICE]);
    assert SERVICE in c.instances && c.instances[DEPENDENCY] == x;
    assert c.registry[SERVICE][0] == DEPENDENCY;
    c.RegisterInstance(DEPENDENCY, y);
  }

  // Redeclaring a built service with a dependency that has no instance leaves it without that instance.
  method RedeclaredService(behaviour: Token -> Behaviour) returns (c: Container)
    requires behaviour(SERVICE) == Constructs
    ensures !c.Inv() && !c.Closed()
  {
    c := new Container(behaviour);
    c.Register(SERVICE, []);
    SingleIsValidated(c.registry, c.instances.Keys, behaviour);
    var r := c.Resolve(SERVICE, [SERVICE]);
    assert SERVICE in c.instances && DEPENDENCY !in c.instances;
    assert SERVICE in c.built;
    c.Register(SERVICE, [DEPENDENCY]);
    assert c.registry[SERVICE][0] == DEPENDENCY;
    assert DEPENDENCY in c.registry[SERVICE];
  }
}
