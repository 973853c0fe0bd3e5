// Scopes and entities: the builder that accumulates them and the registry it produces.
module EntityRegistration {

  datatype ScopeDefinition = ScopeDefinition(name: string, params: seq<string>)

  datatype EntityDefinition = EntityDefinition(name: string, scope: string, uniqueKeys: seq<string>,
    params: seq<string>)

  // `scopeNames` is the order in which the scopes were defined.
  datatype Registry = Registry(
    scopes: map<string, ScopeDefinition>,
    scopeNames: seq<string>,
    entities: map<string, EntityDefinition>
  )

  // Scope parameters form a chain of prefixes, and an entity has the parameters of its scope
  // followed by its own.
  ghost predicate WellFormed(r: Registry) {
    && (forall s :: s in r.scopes <==> s in r.scopeNames)
    && (forall i, j :: 0 <= i < j < |r.scopeNames| ==> r.scopeNames[i] != r.scopeNames[j])
    && (forall i, j :: 0 <= i <= j < |r.scopeNames| ==>
         r.scopes[r.scopeNames[i]].params <= r.scopes[r.scopeNames[j]].params)
    && (forall e :: e in r.entities ==>
          && r.entities[e].scope in r.scopes
          && r.entities[e].params == r.scopes[r.entities[e].scope].params + r.entities[e].uniqueKeys)
  }

  class EntityRegistryBuilder {
    var scopeDefinitions: map<string, ScopeDefinition>
    var entityDefinitions: map<string, EntityDefinition>
    var scopeOrder: seq<string>

    function Value(): Registry
      reads this
    {
      Registry(scopeDefinitions, scopeOrder, entityDefinitions)
    }

    constructor ()
      ensures Value() == Registry(map[], [], map[]) && WellFormed(Value())
    {
      scopeDefinitions, entityDefinitions, scopeOrder := map[], map[], [];
    }

    // Throws, changing nothing, when the scope is already defined.
    method Scope(name: string, params: seq<string>) returns (threw: bool)
      requires WellFormed(Value())
      modifies this
      ensures WellFormed(Value())
      ensures threw <==> name in old(scopeDefinitions)
      ensures Value() == Define(old(Value()), DefineScope(name, params))
    {
      if name in scopeDefinitions { return true; }
      DefineKeepsWellFormed(Value(), DefineScope(name, params));
      var allParams := InheritedParams(Value()) + params;
      scopeDefinitions := scopeDefinitions[name := ScopeDefinition(name, allParams)];
      scopeOrder := scopeOrder + [name];
      return false;
    }

    // Throws, changing nothing, when the entity is already defined or its scope is not.
    method Entity(name: string, scope: string, uniqueKeys: seq<string>) returns (threw: bool)
      requires WellFormed(Value())
      modifies this
      ensures WellFormed(Value())
      ensures threw <==> name in old(entityDefinitions) || scope !in old(scopeDefinitions)
      ensures Value() == Define(old(Value()), DefineEntity(name, scope, uniqueKeys))
    {
      if name in entityDefinitions || scope !in scopeDefinitions { return true; }
      var fullParams := scopeDefinitions[scope].params + uniqueKeys;
      entityDefinitions := entityDefinitions[name := EntityDefinition(name, scope, uniqueKeys, fullParams)];
      return false;
    }

    method Build() returns (r: Registry)
      ensures r == Value()
    {
      return Registry(scopeDefinitions, scopeOrder, entityDefinitions);
    }
  }

  datatype Definition =
    | DefineScope(name: string, params: seq<string>)
    | DefineEntity(name: string, scope: string, uniqueKeys: seq<string>)

  function InheritedParams(r: Registry): seq<string>
    requires WellFormed(r)
  {
    if r.scopeNames == [] then [] else r.scopes[r.scopeNames[|r.scopeNames| - 1]].params
  }

  function WithScope(r: Registry, name: string, params: seq<string>): Registry {
    r.(scopes := r.scopes[name := ScopeDefinition(name, params)], scopeNames := r.scopeNames + [name])
  }

  // What a call to the builder does; one that throws does nothing.
  function Define(r: Registry, d: Definition): Registry
    requires WellFormed(r)
  {
    match d
    case DefineScope(name, params) =>
      if name in r.scopes then r
      else WithScope(r, name, InheritedParams(r) + params)
    case DefineEntity(name, scope, uniqueKeys) =>
      if name in r.entities || scope !in r.scopes then r
      else
        r.(entities := r.entities[
          name := EntityDefinition(name, scope, uniqueKeys, r.scopes[scope].params + uniqueKeys)])
  }

  lemma DefineKeepsWellFormed(r: Registry, d: Definition)
    requires WellFormed(r)
    ensures WellFormed(Define(r, d))
  {
    if d.DefineScope? && d.name !in r.scopes { ExtendChain(r, d.name, InheritedParams(r) + d.params); }
  }

  function RegistryOf(calls: seq<Definition>): (r: Registry)
    ensures WellFormed(r)
  {
    if calls == [] then Registry(map[], [], map[])
    else
      var before, last := RegistryOf(calls[..|calls| - 1]), calls[|calls| - 1];
      DefineKeepsWellFormed(before, last);
      Define(before, last)
  }

  // The scopes that a sequence of calls defines, each with its own parameters: the first definition
  // of a name counts.
  function OwnScopes(calls: seq<Definition>): seq<ScopeDefinition> {
    if calls == [] then [] else WithDefinition(OwnScopes(calls[..|calls| - 1]), calls[|calls| - 1])
  }

  predicate Named(own: seq<ScopeDefinition>, name: string) { exists i :: 0 <= i < |own| && own[i].name == name }

  function WithDefinition(own: seq<ScopeDefinition>, d: Definition): seq<ScopeDefinition> {
    if d.DefineScope? && !Named(own, d.name) then own + [ScopeDefinition(d.name, d.params)] else own
  }

  // The own parameters of the first `n` scopes.
  function Accumulated(own: seq<ScopeDefinition>, n: nat): seq<string>
    requires n <= |own|
  {
    if n == 0 then [] else Accumulated(own, n - 1) + own[n - 1].params
  }

  lemma {:induction false} AccumulatedBefore(own: seq<ScopeDefinition>, next: ScopeDefinition, n: nat)
    requires n <= |own|
    ensures Accumulated(own + [next], n) == Accumulated(own, n)
  {
    if n > 0 { AccumulatedBefore(own, next, n - 1); }
  }

  // The registry lists the scopes in the order of their definitions, and each scope has its own
  // parameters after those of all scopes defined before it.
  ghost predicate Accumulates(r: Registry, own: seq<ScopeDefinition>) {
    |r.scopeNames| == |own| && forall i :: 0 <= i < |own| ==> AccumulatesAt(r, own, i)
  }

  predicate AccumulatesAt(r: Registry, own: seq<ScopeDefinition>, i: nat)
    requires i < |own|
  {
    && i < |r.scopeNames| && r.scopeNames[i] == own[i].name && own[i].name in r.scopes
    && r.scopes[own[i].name].params == Accumulated(own, i + 1)
  }

  lemma EarlierScopeAccumulates(r: Registry, own: seq<ScopeDefinition>, next: ScopeDefinition,
                                params: seq<string>, i: nat)
    requires i < |own| && AccumulatesAt(r, own, i) && next.name !in r.scopes
    ensures AccumulatesAt(WithScope(r, next.name, params), own + [next], i)
  {
    AccumulatedBefore(own, next, i + 1);
  }

  lemma ScopeAccumulates(r: Registry, own: seq<ScopeDefinition>, next: ScopeDefinition)
    requires Accumulates(r, own) && next.name !in r.scopes
    ensures Accumulates(WithScope(r, next.name, Accumulated(own, |own|) + next.params), own + [next])
  {
    var params := Accumulated(own, |own|) + next.params;
    forall i | 0 <= i < |own + [next]| ensures AccumulatesAt(WithScope(r, next.name, params), own + [next], i) {
      if i < |own| {
        EarlierScopeAccumulates(r, own, next, params, i);
      } else {
        AccumulatedBefore(own, next, |own|);
      }
    }
  }

  lemma ScopesAreNamed(r: Registry, own: seq<ScopeDefinition>, name: string)
    requires WellFormed(r) && Accumulates(r, own)
    ensures name in r.scopes <==> Named(own, name)
  {
    if name in r.scopes {
      var i :| 0 <= i < |r.scopeNames| && r.scopeNames[i] == name;
      assert AccumulatesAt(r, own, i);
    }
    if i :| 0 <= i < |own| && own[i].name == name { assert AccumulatesAt(r, own, i); }
  }

  lemma ScopeDefinitionAccumulates(r: Registry, own: seq<ScopeDefinition>, name: string, params: seq<string>)
    requires WellFormed(r) && Accumulates(r, own) && name !in r.scopes
    ensures Accumulates(Define(r, DefineScope(name, params)), own + [ScopeDefinition(name, params)])
  {
    InheritedAccumulates(r, own);
    ScopeAccumulates(r, own, ScopeDefinition(name, params));
  }

  lemma InheritedAccumulates(r: Registry, own: seq<ScopeDefinition>)
    requires WellFormed(r) && Accumulates(r, own)
    ensures InheritedParams(r) == Accumulated(own, |own|)
  {
    if own != [] { assert AccumulatesAt(r, own, |own| - 1); }
  }

  lemma EntitiesDoNotMatter(r: Registry, r': Registry, own: seq<ScopeDefinition>)
    requires Accumulates(r, own) && r'.scopes == r.scopes && r'.scopeNames == r.scopeNames
    ensures Accumulates(r', own)
  {
    forall i | 0 <= i < |own| ensures AccumulatesAt(r', own, i) { assert AccumulatesAt(r, own, i); }
  }

  lemma DefineAccumulates(r: Registry, own: seq<ScopeDefinition>, d: Definition)
    requires WellFormed(r) && Accumulates(r, own)
    ensures Accumulates(Define(r, d), WithDefinition(own, d))
  {
    match d {
      case DefineScope(name, params) =>
        ScopesAreNamed(r, own, name);
        if name !in r.scopes { ScopeDefinitionAccumulates(r, own, name, params); }
      case DefineEntity(_, _, _) => EntitiesDoNotMatter(r, Define(r, d), own);
    }
  }

  // Every registry the builder hands out accumulates the parameters of its scopes.
  lemma {:induction false} ScopesAccumulate(calls: seq<Definition>)
    ensures Accumulates(RegistryOf(calls), OwnScopes(calls))
  {
    if calls != [] {
      var rest, last := calls[..|calls| - 1], calls[|calls| - 1];
      ScopesAccumulate(rest);
      DefineAccumulates(RegistryOf(rest), OwnScopes(rest), last);
    }
  }

  // The calls that define an entity: the first of its name whose scope has been defined by then.
  function EntityCalls(calls: seq<Definition>): seq<Definition> {
    if calls == [] then []
    else
      var rest, last := calls[..|calls| - 1], calls[|calls| - 1];
      var before := EntityCalls(rest);
      if last.DefineEntity? && !Defines(before, last.name) && Named(OwnScopes(rest), last.scope)
      then before + [last]
      else before
  }

  predicate Defines(calls: seq<Definition>, name: string) {
    exists i :: 0 <= i < |calls| && calls[i].name == name
  }

  // The entity has the scope and unique keys of its call, and the parameters accumulated by its scope
  // followed by the unique keys.
  ghost predicate HoldsEntity(r: Registry, own: seq<ScopeDefinition>, d: Definition) {
    && d.DefineEntity? && d.name in r.entities
    && r.entities[d.name].name == d.name && r.entities[d.name].scope == d.scope
    && r.entities[d.name].uniqueKeys == d.uniqueKeys
    && exists i :: 0 <= i < |own| && own[i].name == d.scope
                   && r.entities[d.name].params == Accumulated(own, i + 1) + d.uniqueKeys
  }

  ghost predicate HoldsEntities(r: Registry, own: seq<ScopeDefinition>, defined: seq<Definition>) {
    && (forall name :: name in r.entities <==> Defines(defined, name))
    && (forall i :: 0 <= i < |defined| ==> HoldsEntity(r, own, defined[i]))
  }

  lemma LaterScopesKeepEntity(r: Registry, own: seq<ScopeDefinition>, next: ScopeDefinition, d: Definition)
    requires HoldsEntity(r, own, d)
    ensures HoldsEntity(r, own + [next], d)
  {
    var i :| 0 <= i < |own| && own[i].name == d.scope
             && r.entities[d.name].params == Accumulated(own, i + 1) + d.uniqueKeys;
    AccumulatedBefore(own, next, i + 1);
    assert (own + [next])[i] == own[i];
  }

  lemma ScopeKeepsEntities(r: Registry, r': Registry, own: seq<ScopeDefinition>, next: ScopeDefinition,
                           defined: seq<Definition>)
    requires HoldsEntities(r, own, defined) && r'.entities == r.entities
    ensures HoldsEntities(r', own + [next], defined)
  {
    forall i | 0 <= i < |defined| ensures HoldsEntity(r', own + [next], defined[i]) {
      LaterScopesKeepEntity(r, own, next, defined[i]);
      assert HoldsEntity(r, own + [next], defined[i]);
    }
  }

  lemma NewEntityIsHeld(r: Registry, own: seq<ScopeDefinition>, d: Definition)
    requires WellFormed(r) && Accumulates(r, own) && d.DefineEntity? && d.name !in r.entities && d.scope in r.scopes
    ensures HoldsEntity(Define(r, d), own, d)
  {
    ScopesAreNamed(r, own, d.scope);
    var i :| 0 <= i < |own| && own[i].name == d.scope;
    assert AccumulatesAt(r, own, i);
  }

  lemma EntityKeepsEntities(r: Registry, own: seq<ScopeDefinition>, defined: seq<Definition>, d: Definition)
    requires WellFormed(r) && Accumulates(r, own) && HoldsEntities(r, own, defined)
    requires d.DefineEntity? && d.name !in r.entities && d.scope in r.scopes
    ensures HoldsEntities(Define(r, d), own, defined + [d])
  {
    var r', defined' := Define(r, d), defined + [d];
    NewEntityIsHeld(r, own, d);
    forall i | 0 <= i < |defined'| ensures HoldsEntity(r', own, defined'[i]) {
      if i < |defined| {
        assert HoldsEntity(r, own, defined[i]);
        assert Defines(defined, defined[i].name);
      }
    }
    forall name ensures name in r'.entities <==> Defines(defined', name) {
      if i :| 0 <= i < |defined| && defined[i].name == name { assert defined'[i].name == name; }
      assert defined'[|defined|].name == d.name;
      if i :| 0 <= i < |defined'| && defined'[i].name == name { assert i < |defined| ==> Defines(defined, name); }
    }
  }

  // The entities of the registry are exactly those of the effective calls, with their scope, their unique
  // keys and the parameters of the scope before them.
  lemma {:induction false} EntitiesAreDefined(calls: seq<Definition>)
    ensures HoldsEntities(RegistryOf(calls), OwnScopes(calls), EntityCalls(calls))
  {
    if calls != [] {
      var rest, last := calls[..|calls| - 1], calls[|calls| - 1];
      var r, own, defined := RegistryOf(rest), OwnScopes(rest), EntityCalls(rest);
      EntitiesAreDefined(rest);
      ScopesAccumulate(rest);
      match last {
        case DefineScope(name, params) =>
          ScopesAreNamed(r, own, name);
          if name !in r.scopes { ScopeKeepsEntities(r, Define(r, last), own, ScopeDefinition(name, params), defined); }
        case DefineEntity(name, scope, _) =>
          ScopesAreNamed(r, own, scope);
          if name !in r.entities && scope in r.scopes { EntityKeepsEntities(r, own, defined, last); }
      }
    }
  }

  // A new scope whose parameters extend those of the last one keeps the chain.
  lemma ExtendChain(r: Registry, name: string, params: seq<string>)
    requires WellFormed(r) && name !in r.scopes
    requires r.scopeNames != [] ==> r.scopes[r.scopeNames[|r.scopeNames| - 1]].params <= params
    ensures WellFormed(WithScope(r, name, params))
  {
    var names := r.scopeNames + [name];
    var scopes := r.scopes[name := ScopeDefinition(name, params)];
    forall i, j | 0 <= i <= j < |names| ensures scopes[names[i]].params <= scopes[names[j]].params {
      if j == |names| - 1 && i < j {
        assert r.scopes[r.scopeNames[i]].params <= r.scopes[r.scopeNames[j - 1]].params;
      }
    }
    forall s ensures s in scopes <==> s in names { assert s in names <==> s in r.scopeNames || s == name; }
  }

  // The parameters of an entity's scope, and the position of that scope in the hierarchy.
  function ScopeParams(r: Registry, entity: string): seq<string>
    requires entity in r.entities && r.entities[entity].scope in r.scopes
  {
    r.scopes[r.entities[entity].scope].params
  }

  // The first position of a name, or -1.
  function IndexOf(names: seq<string>, name: string): (i: int)
    ensures -1 <= i < |names|
    ensures i == -1 <==> name !in names
    ensures i >= 0 ==> names[i] == name
  {
    if names == [] then -1
    else if names[0] == name then 0
    else
      var i := IndexOf(names[1..], name);
      if i == -1 then -1 else i + 1
  }

  // A scope no deeper than another contributes a prefix of its parameters.
  lemma ShallowerScopeIsPrefix(r: Registry, s: string, s': string)
    requires WellFormed(r) && s in r.scopes && s' in r.scopes
    requires IndexOf(r.scopeNames, s) <= IndexOf(r.scopeNames, s')
    ensures r.scopes[s].params <= r.scopes[s'].params
  {
    var i, j := IndexOf(r.scopeNames, s), IndexOf(r.scopeNames, s');
    assert 0 <= i <= j;
  }
}
