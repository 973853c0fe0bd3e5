// The fluent builder of cache configurations.
module CacheBuilding {
  import opened Options
  import opened EntityRegistration

  // `tags` names the user's tag function, if any.
  datatype CacheConfig = CacheConfig(
    entity: string, scope: string, ttl: real, grace: real,
    params: seq<string>, metaParams: seq<string>, dependsOn: map<string, seq<string>>,
    cacheNull: bool, tags: Option<nat>)

  datatype Refusal =
    | SelfDependency
    | UnknownEntity
    | CrossScope
    | NotInDependent(keys: seq<string>)
    | NotInSource(keys: seq<string>)

  datatype Outcome = Accepted | Refused(reason: Refusal)

  datatype BuildResult = Config(config: CacheConfig) | TtlMissing

  function Filter(s: seq<string>, keep: string -> bool): (r: seq<string>)
    ensures forall x :: x in r <==> x in s && keep(x)
  {
    if s == [] then []
    else
      var rest := Filter(s[..|s| - 1], keep);
      var x := s[|s| - 1];
      assert s == s[..|s| - 1] + [x];
      if keep(x) then rest + [x] else rest
  }

  // What a dependency declaration may list: parameters of both entities.
  ghost predicate Shared(r: Registry, entity: string, dep: string, keys: seq<string>) {
    && entity in r.entities && dep in r.entities
    && forall k :: k in keys ==> k in r.entities[entity].params && k in r.entities[dep].params
  }

  // The dependency's scope parameters are all listed.
  ghost predicate CoversScope(r: Registry, dep: string, keys: seq<string>) {
    && dep in r.entities && r.entities[dep].scope in r.scopes
    && forall k :: k in ScopeParams(r, dep) ==> k in keys
  }

  // The parameters an entity shares with one of a scope no deeper include that scope's parameters.
  lemma CommonKeysCoverScope(r: Registry, entity: string, dep: string, keys: seq<string>)
    requires WellFormed(r) && entity in r.entities && dep in r.entities
    requires IndexOf(r.scopeNames, r.entities[dep].scope) <= IndexOf(r.scopeNames, r.entities[entity].scope)
    requires forall k :: k in keys <==> k in r.entities[dep].params && k in r.entities[entity].params
    ensures Shared(r, entity, dep, keys) && CoversScope(r, dep, keys)
  {
    ShallowerScopeIsPrefix(r, r.entities[dep].scope, r.entities[entity].scope);
  }

  // A configuration that fits the registry: keys by the entity's parameters, its own meta key by its
  // scope's parameters, and each dependency by parameters both entities have.
  ghost predicate Fits(r: Registry, c: CacheConfig) {
    && c.entity in r.entities && r.entities[c.entity].scope in r.scopes
    && c.scope == r.entities[c.entity].scope
    && c.params == r.entities[c.entity].params && c.metaParams == ScopeParams(r, c.entity)
    && c.entity !in c.dependsOn
    && forall dep :: dep in c.dependsOn ==> Shared(r, c.entity, dep, c.dependsOn[dep])
  }

  // Every dependency lists the scope parameters of the entity depended on.
  ghost predicate CoversScopes(r: Registry, c: CacheConfig) {
    forall dep :: dep in c.dependsOn ==> CoversScope(r, dep, c.dependsOn[dep])
  }

  // The entities named after the first `n` scopes, each with its scope's parameters.
  function Hierarchy(r: Registry, entity: string, n: nat, entityOf: string -> string): map<string, seq<string>>
    requires n <= |r.scopeNames|
  {
    if n == 0 then map[]
    else
      var rest := Hierarchy(r, entity, n - 1, entityOf);
      var name := r.scopeNames[n - 1];
      if NamedAfterScope(r, entity, entityOf(name), name) then rest[entityOf(name) := r.scopes[name].params] else rest
  }

  predicate NamedAfterScope(r: Registry, entity: string, dep: string, scope: string) {
    dep != entity && dep in r.entities && r.entities[dep].scope == scope && scope in r.scopes
  }

  // A dependency list that a configuration of `entity` may carry for `dep`.
  ghost predicate Listed(r: Registry, entity: string, dep: string, keys: seq<string>) {
    dep != entity && Shared(r, entity, dep, keys) && CoversScope(r, dep, keys)
  }

  lemma LevelFits(r: Registry, entity: string, dep: string, i: nat)
    requires WellFormed(r) && entity in r.entities && i <= IndexOf(r.scopeNames, r.entities[entity].scope)
    requires NamedAfterScope(r, entity, dep, r.scopeNames[i])
    ensures Listed(r, entity, dep, r.scopes[r.scopeNames[i]].params)
  {
    var j := IndexOf(r.scopeNames, r.entities[entity].scope);
    assert r.scopes[r.scopeNames[i]].params <= r.scopes[r.scopeNames[j]].params;
  }

  // The hierarchy dependencies are exactly the other entities named after one of those scopes and
  // defined in it, each listed by its own scope's parameters.
  lemma {:induction false} HierarchyIsExact(r: Registry, entity: string, n: nat, entityOf: string -> string,
      dep: string)
    requires n <= |r.scopeNames|
    ensures dep in Hierarchy(r, entity, n, entityOf) <==>
      dep != entity && dep in r.entities && r.entities[dep].scope in r.scopes
      && exists i :: 0 <= i < n && r.scopeNames[i] == r.entities[dep].scope && entityOf(r.scopeNames[i]) == dep
    ensures dep in Hierarchy(r, entity, n, entityOf) ==> Hierarchy(r, entity, n, entityOf)[dep] == ScopeParams(r, dep)
  {
    if n > 0 { HierarchyIsExact(r, entity, n - 1, entityOf, dep); }
  }

  lemma HierarchyFits(r: Registry, entity: string, n: nat, entityOf: string -> string, dep: string)
    requires WellFormed(r) && entity in r.entities && n <= IndexOf(r.scopeNames, r.entities[entity].scope) + 1
    requires dep in Hierarchy(r, entity, n, entityOf)
    ensures Listed(r, entity, dep, Hierarchy(r, entity, n, entityOf)[dep])
  {
    HierarchyIsExact(r, entity, n, entityOf, dep);
    var i :| 0 <= i < n && r.scopeNames[i] == r.entities[dep].scope && entityOf(r.scopeNames[i]) == dep;
    LevelFits(r, entity, dep, i);
  }

  // Hierarchy dependencies overlaid with declared ones are listed soundly, and cover the scopes
  // unless a declared list was given explicitly.
  lemma DependenciesFit(r: Registry, entity: string, n: nat, entityOf: string -> string,
                        additional: map<string, seq<string>>, dep: string)
    requires WellFormed(r) && entity in r.entities && n == IndexOf(r.scopeNames, r.entities[entity].scope) + 1
    requires dep in Hierarchy(r, entity, n, entityOf) && dep !in additional
    ensures Listed(r, entity, dep, (Hierarchy(r, entity, n, entityOf) + additional)[dep])
  {
    HierarchyFits(r, entity, n, entityOf, dep);
  }

  class CacheBuilder {
    const registry: Registry
    const entityName: string
    // The naming convention that turns a scope's name into its entity's name.
    const entityOf: string -> string
    var ttlSeconds: Option<real>
    var graceSeconds: real
    var additionalDeps: map<string, seq<string>>
    var shouldCacheNull: bool
    var tagsFn: Option<nat>
    // History: dependencies whose parameters were given explicitly.
    ghost var overridden: set<string>

    ghost predicate Valid()
      reads this
    {
      && WellFormed(registry) && entityName in registry.entities && entityName !in additionalDeps
      && (forall dep :: dep in additionalDeps ==> Shared(registry, entityName, dep, additionalDeps[dep]))
      && (forall dep :: dep in additionalDeps && dep !in overridden ==> CoversScope(registry, dep, additionalDeps[dep]))
    }

    constructor (registry: Registry, entityName: string, entityOf: string -> string)
      requires WellFormed(registry) && entityName in registry.entities
      ensures Valid() && this.registry == registry && this.entityName == entityName && this.entityOf == entityOf
      ensures additionalDeps == map[] && overridden == {} && ttlSeconds == None
    {
      this.registry, this.entityName, this.entityOf := registry, entityName, entityOf;
      ttlSeconds, graceSeconds, additionalDeps, shouldCacheNull, tagsFn := None, 0.0, map[], false, None;
      overridden := {};
    }

    method Ttl(seconds: real)
      modifies this`ttlSeconds
      ensures ttlSeconds == Some(seconds)
    {
      ttlSeconds := Some(seconds);
    }

    method Grace(seconds: real)
      modifies this`graceSeconds
      ensures graceSeconds == seconds
    {
      graceSeconds := seconds;
    }

    method CacheNull(value: bool)
      modifies this`shouldCacheNull
      ensures shouldCacheNull == value
    {
      shouldCacheNull := value;
    }

    method Tags(fn: nat)
      modifies this`tagsFn
      ensures tagsFn == Some(fn)
    {
      tagsFn := Some(fn);
    }

    // Lists the given parameters, unless one of the entities lacks any of them.
    method ListExplicitly(dep: string, keys: seq<string>) returns (outcome: Outcome)
      requires Valid() && dep in registry.entities && dep != entityName
      modifies this`additionalDeps, this`overridden
      ensures Valid()
      ensures outcome.Accepted? <==> Shared(registry, entityName, dep, keys)
      ensures outcome.Accepted? ==>
        additionalDeps == old(additionalDeps)[dep := keys] && overridden == old(overridden) + {dep}
      ensures outcome.Refused? ==> additionalDeps == old(additionalDeps) && overridden == old(overridden)
    {
      var source, dependent := registry.entities[dep], registry.entities[entityName];
      var invalidForDependent := Filter(keys, k => k !in dependent.params);
      if |invalidForDependent| > 0 {
        assert invalidForDependent[0] in invalidForDependent;
        return Refused(NotInDependent(invalidForDependent));
      }
      var invalidForSource := Filter(keys, k => k !in source.params);
      if |invalidForSource| > 0 {
        assert invalidForSource[0] in invalidForSource;
        return Refused(NotInSource(invalidForSource));
      }
      additionalDeps := additionalDeps[dep := keys];
      overridden := overridden + {dep};
      return Accepted;
    }

    // Lists the parameters that both entities have.
    method ListShared(dep: string)
      requires Valid() && dep in registry.entities && dep != entityName
      requires IndexOf(registry.scopeNames, registry.entities[dep].scope)
            <= IndexOf(registry.scopeNames, registry.entities[entityName].scope)
      modifies this`additionalDeps, this`overridden
      ensures Valid()
      ensures dep in additionalDeps && additionalDeps == old(additionalDeps)[dep := additionalDeps[dep]]
      ensures forall k :: k in additionalDeps[dep] <==>
        k in registry.entities[dep].params && k in registry.entities[entityName].params
      ensures overridden == old(overridden) - {dep}
    {
      var source, dependent := registry.entities[dep], registry.entities[entityName];
      var narrowed := Filter(source.params, k => k in dependent.params);
      CommonKeysCoverScope(registry, entityName, dep, narrowed);
      additionalDeps := additionalDeps[dep := narrowed];
      overridden := overridden - {dep};
    }

    // Refuses self-dependencies, dependencies on a deeper scope, and explicit parameters that
    // either entity lacks.
    method DependsOn(dep: string, params: Option<seq<string>>) returns (outcome: Outcome)
      requires Valid()
      modifies this`additionalDeps, this`overridden
      ensures Valid()
      ensures outcome.Refused? ==> additionalDeps == old(additionalDeps) && overridden == old(overridden)
      ensures outcome.Accepted? ==>
        && dep in additionalDeps && additionalDeps == old(additionalDeps)[dep := additionalDeps[dep]]
        && overridden == (if params.Some? then old(overridden) + {dep} else old(overridden) - {dep})
      ensures outcome.Accepted? && params.Some? ==> additionalDeps[dep] == params.value
      ensures outcome.Accepted? && params.None? ==> forall k :: k in additionalDeps[dep] <==>
        k in registry.entities[dep].params && k in registry.entities[entityName].params
      ensures outcome.Accepted? <==>
        && dep != entityName && dep in registry.entities
        && IndexOf(registry.scopeNames, registry.entities[dep].scope)
             <= IndexOf(registry.scopeNames, registry.entities[entityName].scope)
        && (params.Some? ==> Shared(registry, entityName, dep, params.value))
    {
      if dep == entityName { return Refused(SelfDependency); }
      if dep !in registry.entities { return Refused(UnknownEntity); }
      var sourceIndex := IndexOf(registry.scopeNames, registry.entities[dep].scope);
      var dependentIndex := IndexOf(registry.scopeNames, registry.entities[entityName].scope);
      if sourceIndex != -1 && dependentIndex != -1 && sourceIndex > dependentIndex {
        return Refused(CrossScope);
      }
      match params {
        case Some(keys) => outcome := ListExplicitly(dep, keys);
        case None =>
          ListShared(dep);
          outcome := Accepted;
      }
    }

    // The hierarchy dependencies, overlaid with the declared ones.
    method BuildDependsOn(entityScope: string) returns (result: map<string, seq<string>>)
      ensures result ==
        Hierarchy(registry, entityName, IndexOf(registry.scopeNames, entityScope) + 1, entityOf) + additionalDeps
    {
      var names := registry.scopeNames;
      result := map[];
      var n := IndexOf(names, entityScope) + 1;
      for i := 0 to n
        invariant result == Hierarchy(registry, entityName, i, entityOf)
      {
        var scopeName := names[i];
        var potential := entityOf(scopeName);
        if NamedAfterScope(registry, entityName, potential, scopeName) {
          result := result[potential := registry.scopes[scopeName].params];
        }
      }
      result := Overlay(result, additionalDeps);
    }

    method Build() returns (r: BuildResult)
      requires Valid()
      ensures r.Config? <==> ttlSeconds.Some?
      ensures r.Config? ==>
        && Fits(registry, r.config) && r.config.entity == entityName
        && r.config.ttl == ttlSeconds.value && r.config.grace == graceSeconds
        && r.config.cacheNull == shouldCacheNull && r.config.tags == tagsFn
        && (var n := IndexOf(registry.scopeNames, registry.entities[entityName].scope) + 1;
            r.config.dependsOn == Hierarchy(registry, entityName, n, entityOf) + additionalDeps)
        && (overridden == {} ==> CoversScopes(registry, r.config))
    {
      if ttlSeconds.None? { return TtlMissing; }
      var entity := registry.entities[entityName];
      var dependsOn := BuildDependsOn(entity.scope);
      var n := IndexOf(registry.scopeNames, entity.scope) + 1;
      forall dep | dep in dependsOn && dep !in additionalDeps
        ensures Listed(registry, entityName, dep, dependsOn[dep])
      {
        DependenciesFit(registry, entityName, n, entityOf, additionalDeps, dep);
      }
      return Config(CacheConfig(entityName, entity.scope, ttlSeconds.value, graceSeconds, entity.params,
                                registry.scopes[entity.scope].params, dependsOn, shouldCacheNull, tagsFn));
    }
  }

  method Overlay(base: map<string, seq<string>>, additional: map<string, seq<string>>)
    returns (result: map<string, seq<string>>)
    ensures result == base + additional
  {
    result := base;
    var todo := additional.Keys;
    while todo != {}
      invariant todo <= additional.Keys
      invariant result == base + (additional - todo)
    {
      var dep :| dep in todo;
      todo := todo - {dep};
      result := result[dep := additional[dep]];
    }
    assert additional - {} == additional;
  }
}
