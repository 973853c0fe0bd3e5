// The cache service: the configurations an instance has seen, the meta keys an entry is written
// under, and the meta keys an invalidation looks up.
module CacheServices {
  import opened Options
  import opened CacheBuilding
  import opened KeyGeneration
  import opened RedisStore

  // What the service takes from outside: the hash, the user's tag functions by number, and the tag
  // function registered for each entity's invalidation.
  datatype Env = Env(h: Hasher, tagsOf: (nat, Params) -> seq<string>, invalidationTags: map<string, nat>)

  // Configurations seen, by entity, and for each entity those that depend on it.
  datatype Tracking = Tracking(configs: map<string, set<CacheConfig>>, dependents: map<string, set<string>>)

  function ConfigsOf(t: Tracking, entity: string): set<CacheConfig> {
    if entity in t.configs then t.configs[entity] else {}
  }

  function DependentsOf(t: Tracking, entity: string): set<string> {
    if entity in t.dependents then t.dependents[entity] else {}
  }

  predicate Seen(t: Tracking, c: CacheConfig) { c in ConfigsOf(t, c.entity) }

  function Track(t: Tracking, c: CacheConfig): Tracking {
    if Seen(t, c) then t
    else
      Tracking(
        t.configs[c.entity := ConfigsOf(t, c.entity) + {c}],
        map d | d in t.dependents.Keys + c.dependsOn.Keys ::
          if d in c.dependsOn then DependentsOf(t, d) + {c.entity} else t.dependents[d])
  }

  // Configurations are filed under their own entity, and under each of their dependencies.
  ghost predicate Filed(t: Tracking) {
    forall e, c :: c in ConfigsOf(t, e) ==> c.entity == e && forall d :: d in c.dependsOn ==> e in DependentsOf(t, d)
  }

  lemma TrackKeepsFiled(t: Tracking, c: CacheConfig)
    requires Filed(t)
    ensures Filed(Track(t, c)) && Seen(Track(t, c), c)
    ensures forall c' :: Seen(t, c') ==> Seen(Track(t, c), c')
  {
    var t' := Track(t, c);
    forall e, x | x in ConfigsOf(t', e)
      ensures x.entity == e && forall d :: d in x.dependsOn ==> e in DependentsOf(t', d)
    {
      if x in ConfigsOf(t, e) {
        forall d | d in x.dependsOn ensures e in DependentsOf(t', d) { assert e in DependentsOf(t, d); }
      }
    }
  }

  function MetaKeyOf(h: Hasher, entity: string, p: Params): Key { MetaKey(h(MetaMaterial(MetaFields(entity, p)))) }

  // The meta key of `entity` for the values of `p` under `keys`.
  function NarrowKey(h: Hasher, entity: string, keys: seq<string>, p: Params): Key {
    MetaKeyOf(h, entity, AsParams(Extract(keys, p)))
  }

  function TagKeys(h: Hasher, tags: seq<string>): set<Key> { set t | t in tags :: TagKey(h(TagMaterial(t))) }

  function EntryTags(env: Env, c: CacheConfig, p: Params): seq<string> {
    if c.tags.Some? then env.tagsOf(c.tags.value, p) else []
  }

  function EntityTags(env: Env, entity: string, q: Params): seq<string> {
    if entity in env.invalidationTags then env.tagsOf(env.invalidationTags[entity], q) else []
  }

  function DependencyKeys(h: Hasher, c: CacheConfig, p: Params): set<Key> {
    set d | d in c.dependsOn && c.dependsOn[d] != [] :: NarrowKey(h, d, c.dependsOn[d], p)
  }

  // The meta keys of an entry; None when generating one of them throws.
  function EntryMetaKeys(env: Env, c: CacheConfig, p: Params): Option<set<Key>> {
    if c.entity == "" || !Complete(c.metaParams, p)
       || ("" in c.dependsOn && c.dependsOn[""] != []) || "" in EntryTags(env, c, p)
    then None
    else
      Some({NarrowKey(env.h, c.entity, c.metaParams, p)} + DependencyKeys(env.h, c, p)
           + TagKeys(env.h, EntryTags(env, c, p)))
  }

  // Meta keys added from the configurations seen: those of the entity itself, and those under which
  // dependents filed their entries.
  function OwnKeys(h: Hasher, t: Tracking, entity: string, q: Params): set<Key> {
    set c | c in ConfigsOf(t, entity) && c.entity != "" && Complete(c.metaParams, q) ::
      NarrowKey(h, c.entity, c.metaParams, q)
  }

  function DependentKeys(h: Hasher, t: Tracking, entity: string, q: Params): set<Key> {
    set d, c | d in DependentsOf(t, entity) && c in ConfigsOf(t, d)
               && entity in c.dependsOn && c.dependsOn[entity] != [] ::
      NarrowKey(h, entity, c.dependsOn[entity], q)
  }

  // The meta keys an invalidation deletes by; None when generating one of them throws.
  function InvalidationKeys(env: Env, t: Tracking, entity: string, q: Params): Option<set<Key>> {
    if entity == "" || "" in EntityTags(env, entity, q) then None
    else
      Some({MetaKeyOf(env.h, entity, q)} + TagKeys(env.h, EntityTags(env, entity, q))
           + OwnKeys(env.h, t, entity, q) + DependentKeys(env.h, t, entity, q))
  }

  function Lifetime(c: CacheConfig, defaultGrace: real): real {
    c.ttl + if c.grace != 0.0 then c.grace else defaultGrace
  }

  datatype Outcome = Threw | NotCached | Stored

  // What a write does; a missing value is stored only when the configuration caches nulls.
  function WriteOutcome(env: Env, c: CacheConfig, p: Params, value: Option<string>): Outcome {
    if GenerateCacheKey(env.h, c, p).None? then Threw
    else if value.None? && !c.cacheNull then NotCached
    else if EntryMetaKeys(env, c, p).None? then Threw
    else Stored
  }

  function Text(value: Option<string>): string { if value.Some? then value.value else "null" }

  function AfterWrite(env: Env, s: Store, c: CacheConfig, p: Params, value: Option<string>, defaultGrace: real): Store {
    if WriteOutcome(env, c, p, value).Stored? then
      SetWithMeta(s, GenerateCacheKey(env.h, c, p).value, Text(value), Lifetime(c, defaultGrace),
                  EntryMetaKeys(env, c, p).value)
    else s
  }

  function AfterInvalidate(env: Env, t: Tracking, s: Store, entity: string, q: Params): Store {
    match InvalidationKeys(env, t, entity, q)
    case Some(keys) => DelByMeta(s, keys)
    case None => s
  }

  // Generating the keys of an invalidation throws exactly for an unnamed entity or an empty tag, whatever
  // configurations have been seen.
  lemma InvalidationThrowsExactly(env: Env, t: Tracking, entity: string, q: Params)
    ensures InvalidationKeys(env, t, entity, q).Some? <==>
      entity != "" && !(entity in env.invalidationTags && "" in env.tagsOf(env.invalidationTags[entity], q))
  {
  }

  // Generating the keys of an entry throws exactly for an unnamed entity, a missing meta parameter, a
  // listed dependency on an unnamed entity or an empty tag.
  lemma EntryKeysThrowExactly(env: Env, c: CacheConfig, p: Params)
    ensures EntryMetaKeys(env, c, p).Some? <==>
      && c.entity != "" && (forall k :: k in c.metaParams ==> k in p && p[k].Defined?)
      && !("" in c.dependsOn && c.dependsOn[""] != [])
      && !(c.tags.Some? && "" in env.tagsOf(c.tags.value, p))
  {
  }

  // What a write does: it needs a cache key, stores a missing value only when the configuration caches
  // nulls, and then needs the keys of the entry.
  lemma WriteOutcomeExactly(env: Env, c: CacheConfig, p: Params, value: Option<string>)
    ensures
      var named := c.entity != "" && forall k :: k in c.params ==> k in p && p[k].Defined?;
      var filed :=
        && (forall k :: k in c.metaParams ==> k in p && p[k].Defined?)
        && !("" in c.dependsOn && c.dependsOn[""] != [])
        && !(c.tags.Some? && "" in env.tagsOf(c.tags.value, p));
      && (WriteOutcome(env, c, p, value).Stored? <==> named && (value.Some? || c.cacheNull) && filed)
      && (WriteOutcome(env, c, p, value).NotCached? <==> named && value.None? && !c.cacheNull)
  {
    CacheKeyThrowsExactly(env.h, c, p);
    EntryKeysThrowExactly(env, c, p);
  }

  // A stored write leaves its value under the cache key, live for the configured ttl and grace period, the
  // default one when none is configured, and for good when these do not add up to a lifetime. A write
  // that is not stored leaves the store alone.
  lemma WriteStoresExactly(env: Env, s: Store, c: CacheConfig, p: Params, value: Option<string>, grace: real)
    ensures var s' := AfterWrite(env, s, c, p, value, grace);
      var lifetime := c.ttl + (if c.grace == 0.0 then grace else c.grace);
      if WriteOutcome(env, c, p, value).Stored? then
        var k := GenerateCacheKey(env.h, c, p).value;
        && k in s'.data && (value.Some? ==> s'.data[k].value == value.value)
        && (value.None? ==> s'.data[k].value == "null")
        && (forall ms: nat :: Live(Tick(s', ms), k) <==> lifetime <= 0.0 || (ms as real) < lifetime * 1000.0)
        && (forall x :: x != k ==> (x in s'.data <==> x in s.data) && (x in s.data ==> s'.data[x] == s.data[x]))
      else s' == s
  {
    if WriteOutcome(env, c, p, value).Stored? {
      WriteIsStored(s, GenerateCacheKey(env.h, c, p).value, Text(value), Lifetime(c, grace),
                    EntryMetaKeys(env, c, p).value);
    }
  }

  // Exactly the configurations seen before and the new one are filed under their entity.
  lemma TrackIsExact(t: Tracking, c: CacheConfig, e: string, x: CacheConfig)
    ensures var t' := Track(t, c);
      var filed, filed' := e in t.configs && x in t.configs[e], e in t'.configs && x in t'.configs[e];
      filed' <==> filed || (e == c.entity && x == c)
  {
  }

  // Appends a key that is not yet listed.
  function Include(keys: seq<Key>, k: Key): (r: seq<Key>)
    ensures Elems(r) == Elems(keys) + {k}
  {
    if k in keys then keys else keys + [k]
  }

  method AddTagKeys(h: Hasher, tags: seq<string>, keys: seq<Key>) returns (r: Option<seq<Key>>)
    ensures r.None? <==> "" in tags
    ensures r.Some? ==> Elems(r.value) == Elems(keys) + TagKeys(h, tags)
  {
    var result := keys;
    for i := 0 to |tags|
      invariant "" !in tags[..i]
      invariant Elems(result) == Elems(keys) + TagKeys(h, tags[..i])
    {
      var k := GenerateTagMetaKey(h, tags[i]);
      if k.None? { return None; }
      assert tags[..i + 1] == tags[..i] + [tags[i]];
      assert TagKeys(h, tags[..i + 1]) == TagKeys(h, tags[..i]) + {k.value};
      result := Include(result, k.value);
    }
    assert tags[..|tags|] == tags;
    return Some(result);
  }

  class CacheService {
    const env: Env
    const provider: RedisCacheProvider
    const defaultGraceSeconds: real
    var configsByEntity: map<string, set<CacheConfig>>
    var dependentsByEntity: map<string, set<string>>

    function Value(): Tracking
      reads this
    {
      Tracking(configsByEntity, dependentsByEntity)
    }

    constructor (env: Env, provider: RedisCacheProvider, defaultGraceSeconds: real)
      ensures this.env == env && this.provider == provider && this.defaultGraceSeconds == defaultGraceSeconds
      ensures Value() == Tracking(map[], map[]) && Filed(Value())
    {
      this.env, this.provider, this.defaultGraceSeconds := env, provider, defaultGraceSeconds;
      configsByEntity, dependentsByEntity := map[], map[];
    }

    // Also done by every read through getOrSet.
    method TrackConfig(c: CacheConfig)
      modifies this
      ensures Value() == Track(old(Value()), c)
    {
      var entity := c.entity;
      if entity !in configsByEntity { configsByEntity := configsByEntity[entity := {}]; }
      if c in configsByEntity[entity] {
        return;
      }
      configsByEntity := configsByEntity[entity := configsByEntity[entity] + {c}];
      dependentsByEntity := FileUnder(dependentsByEntity, c.dependsOn.Keys, entity);
    }

    method AddDependencyKeys(c: CacheConfig, p: Params, keys: seq<Key>) returns (r: Option<seq<Key>>)
      ensures r.None? <==> "" in c.dependsOn && c.dependsOn[""] != []
      ensures r.Some? ==> Elems(r.value) == Elems(keys) + DependencyKeys(env.h, c, p)
    {
      var metaKeys := keys;
      var todo := c.dependsOn.Keys;
      while todo != {}
        invariant todo <= c.dependsOn.Keys
        invariant Elems(metaKeys) == Elems(keys) + KeysUnder(env.h, c, p, c.dependsOn.Keys - todo)
        invariant "" in c.dependsOn && c.dependsOn[""] != [] ==> "" in todo
      {
        var entity :| entity in todo;
        KeysUnderMore(env.h, c, p, c.dependsOn.Keys - todo, entity);
        assert c.dependsOn.Keys - (todo - {entity}) == c.dependsOn.Keys - todo + {entity};
        todo := todo - {entity};
        if |c.dependsOn[entity]| != 0 {
          var depParams, _ := CollectParams(c.dependsOn[entity], p);
          var depKey := GenerateMetaKey(env.h, entity, AsParams(depParams));
          if depKey.None? { return None; }
          metaKeys := Include(metaKeys, depKey.value);
        }
      }
      assert c.dependsOn.Keys - todo == c.dependsOn.Keys;
      assert KeysUnder(env.h, c, p, c.dependsOn.Keys) == DependencyKeys(env.h, c, p);
      return Some(metaKeys);
    }

    // The meta keys to write an entry under, without repetition.
    method GenerateMetaKeys(c: CacheConfig, p: Params) returns (r: Option<seq<Key>>)
      ensures r.Some? <==> EntryMetaKeys(env, c, p).Some?
      ensures r.Some? <==>
        && c.entity != "" && (forall k :: k in c.metaParams ==> k in p && p[k].Defined?)
        && !("" in c.dependsOn && c.dependsOn[""] != [])
        && !(c.tags.Some? && "" in env.tagsOf(c.tags.value, p))
      ensures r.Some? ==> Elems(r.value) == EntryMetaKeys(env, c, p).value
    {
      var self := MakeConfigMetaKey(env.h, c, p);
      if self.None? { return None; }
      var metaKeys := AddDependencyKeys(c, p, [self.value]);
      if metaKeys.None? { return None; }
      assert Elems([self.value]) == {self.value};
      r := AddTagKeys(env.h, EntryTags(env, c, p), metaKeys.value);
    }

    method SetEntry(c: CacheConfig, p: Params, cacheKey: Key, value: Option<string>) returns (outcome: Outcome)
      requires GenerateCacheKey(env.h, c, p) == Some(cacheKey)
      modifies this, provider
      ensures outcome == WriteOutcome(env, c, p, value)
      ensures Value() == Track(old(Value()), c)
      ensures provider.Value() == AfterWrite(env, old(provider.Value()), c, p, value, defaultGraceSeconds)
      ensures outcome.Stored? ==>
        cacheKey in provider.data && (value.Some? ==> provider.data[cacheKey].value == value.value)
    {
      TrackConfig(c);
      if value.None? && !c.cacheNull { return NotCached; }
      var totalTtl := Lifetime(c, defaultGraceSeconds);
      var metaKeys := GenerateMetaKeys(c, p);
      if metaKeys.None? { return Threw; }
      provider.WriteTracked(cacheKey, Text(value), totalTtl, metaKeys.value);
      return Stored;
    }

    method Set(c: CacheConfig, p: Params, value: Option<string>) returns (outcome: Outcome)
      modifies this, provider
      ensures outcome == WriteOutcome(env, c, p, value)
      ensures Value() == if GenerateCacheKey(env.h, c, p).Some? then Track(old(Value()), c) else old(Value())
      ensures provider.Value() == AfterWrite(env, old(provider.Value()), c, p, value, defaultGraceSeconds)
      ensures outcome.Stored? ==>
        var k := GenerateCacheKey(env.h, c, p).value;
        k in provider.data && (value.Some? ==> provider.data[k].value == value.value)
    {
      var cacheKey := MakeCacheKey(env.h, c, p);
      if cacheKey.None? { return Threw; }
      outcome := SetEntry(c, p, cacheKey.value, value);
    }

    method AddOwnKeys(entity: string, q: Params, keys: seq<Key>) returns (r: seq<Key>)
      ensures Elems(r) == Elems(keys) + OwnKeysAmong(env.h, ConfigsOf(Value(), entity), q)
    {
      r := keys;
      var configs := ConfigsOf(Value(), entity);
      var todo := configs;
      while todo != {}
        invariant todo <= configs
        invariant Elems(r) == Elems(keys) + OwnKeysAmong(env.h, configs - todo, q)
      {
        var c :| c in todo;
        OwnKeysMore(env.h, configs - todo, c, q);
        assert configs - (todo - {c}) == configs - todo + {c};
        todo := todo - {c};
        var k := MakeConfigMetaKey(env.h, c, q);
        if k.Some? { r := Include(r, k.value); }
      }
      assert configs - todo == configs;
    }

    method AddDependentKeys(dependent: string, entity: string, q: Params, keys: seq<Key>) returns (r: seq<Key>)
      requires entity != ""
      ensures Elems(r) == Elems(keys) + KeysOn(env.h, ConfigsOf(Value(), dependent), entity, q)
    {
      r := keys;
      var configs := ConfigsOf(Value(), dependent);
      var todo := configs;
      while todo != {}
        invariant todo <= configs
        invariant Elems(r) == Elems(keys) + KeysOn(env.h, configs - todo, entity, q)
      {
        var c :| c in todo;
        KeysOnMore(env.h, configs - todo, c, entity, q);
        assert configs - (todo - {c}) == configs - todo + {c};
        todo := todo - {c};
        if entity in c.dependsOn && |c.dependsOn[entity]| != 0 {
          var depParams, _ := CollectParams(c.dependsOn[entity], q);
          r := Include(r, MetaKeyOf(env.h, entity, AsParams(depParams)));
        }
      }
      assert configs - todo == configs;
    }

    method AddTrackedMetaKeys(entity: string, q: Params, keys: seq<Key>) returns (r: seq<Key>)
      requires entity != "" && Filed(Value())
      ensures Elems(r) == Elems(keys) + OwnKeys(env.h, Value(), entity, q) + DependentKeys(env.h, Value(), entity, q)
    {
      r := AddOwnKeys(entity, q, keys);
      ghost var own := Elems(r);
      assert OwnKeysAmong(env.h, ConfigsOf(Value(), entity), q) == OwnKeys(env.h, Value(), entity, q);
      var dependents := DependentsOf(Value(), entity);
      var todo := dependents;
      while todo != {}
        invariant todo <= dependents
        invariant Elems(r) == own + KeysOfDependents(env.h, Value(), dependents - todo, entity, q)
      {
        var d :| d in todo;
        KeysOfDependentsMore(env.h, Value(), dependents - todo, d, entity, q);
        assert dependents - (todo - {d}) == dependents - todo + {d};
        todo := todo - {d};
        r := AddDependentKeys(d, entity, q, r);
      }
      assert dependents - todo == dependents;
      assert KeysOfDependents(env.h, Value(), dependents, entity, q) == DependentKeys(env.h, Value(), entity, q);
    }

    // The keys to delete by; None when generating one of them throws.
    method CollectInvalidationKeys(entity: string, q: Params) returns (r: Option<seq<Key>>)
      requires Filed(Value())
      ensures r.Some? <==> InvalidationKeys(env, Value(), entity, q).Some?
      ensures r.Some? <==>
        entity != "" && !(entity in env.invalidationTags && "" in env.tagsOf(env.invalidationTags[entity], q))
      ensures r.Some? ==> Elems(r.value) == InvalidationKeys(env, Value(), entity, q).value
    {
      var metaKey := GenerateMetaKey(env.h, entity, q);
      if metaKey.None? { return None; }
      assert Elems([metaKey.value]) == {metaKey.value};
      r := AddTagKeys(env.h, EntityTags(env, entity, q), [metaKey.value]);
      if r.None? { return; }
      var all := AddTrackedMetaKeys(entity, q, r.value);
      r := Some(all);
    }

    // Cascading invalidation; None when it throws, which it does before deleting anything.
    method Invalidate(entity: string, q: Params) returns (deleted: Option<nat>)
      requires Filed(Value())
      modifies provider
      ensures provider.Value() == AfterInvalidate(env, Value(), old(provider.Value()), entity, q)
      ensures deleted.Some? <==>
        entity != "" && !(entity in env.invalidationTags && "" in env.tagsOf(env.invalidationTags[entity], q))
      ensures deleted.Some? <==> InvalidationKeys(env, Value(), entity, q).Some?
      ensures deleted.Some? ==>
        var was := old(provider.Value());
        deleted.value == |set k | k in was.data && k !in provider.data
                                  && (was.data[k].expiry.Never? || was.now < was.data[k].expiry.ms)|
    {
      var keys := CollectInvalidationKeys(entity, q);
      if keys.None? { return None; }
      ghost var was := provider.Value();
      var n := provider.DelByMetaMany(keys.value);
      CountedAreRemoved(was, Elems(keys.value));
      assert LiveAmong(was, Victims(was, Elems(keys.value))) ==
        set k | k in was.data && k !in provider.data && (was.data[k].expiry.Never? || was.now < was.data[k].expiry.ms);
      return Some(n);
    }

    // Several invalidations in one script; when one throws, nothing is deleted.
    method InvalidateMany(invalidations: seq<(string, Params)>) returns (deleted: Option<nat>)
      requires Filed(Value())
      modifies provider
      ensures provider.Value() == AfterInvalidateMany(env, Value(), old(provider.Value()), invalidations)
      ensures deleted.Some? <==>
        forall i :: 0 <= i < |invalidations| ==>
          var (entity, q) := invalidations[i];
          entity != "" && !(entity in env.invalidationTags && "" in env.tagsOf(env.invalidationTags[entity], q))
      ensures deleted.Some? <==> AllKeys(env, Value(), invalidations).Some?
      ensures deleted.Some? ==>
        var was := old(provider.Value());
        deleted.value == |set k | k in was.data && k !in provider.data
                                  && (was.data[k].expiry.Never? || was.now < was.data[k].expiry.ms)|
    {
      var all: seq<Key> := [];
      assert Elems(all) == {} && invalidations[..0] == [];
      for i := 0 to |invalidations|
        invariant provider.Value() == old(provider.Value())
        invariant AllKeys(env, Value(), invalidations[..i]) == Some(Elems(all))
      {
        var keys := CollectInvalidationKeys(invalidations[i].0, invalidations[i].1);
        assert invalidations[..i + 1][..i] == invalidations[..i];
        if keys.None? {
          AllKeysThrow(env, Value(), invalidations, i);
          return None;
        }
        assert Elems(all + keys.value) == Elems(all) + Elems(keys.value);
        all := all + keys.value;
      }
      assert invalidations[..|invalidations|] == invalidations;
      forall i | 0 <= i < |invalidations|
        ensures InvalidationKeys(env, Value(), invalidations[i].0, invalidations[i].1).Some?
      {
        AllKeysInclude(env, Value(), invalidations, i);
      }
      ghost var was := provider.Value();
      var n := provider.DelByMetaMany(all);
      CountedAreRemoved(was, Elems(all));
      assert LiveAmong(was, Victims(was, Elems(all))) ==
        set k | k in was.data && k !in provider.data && (was.data[k].expiry.Never? || was.now < was.data[k].expiry.ms);
      return Some(n);
    }
  }

  // The keys of all invalidations; None when generating one of them throws.
  function AllKeys(env: Env, t: Tracking, invalidations: seq<(string, Params)>): Option<set<Key>> {
    if invalidations == [] then Some({})
    else
      var last := invalidations[|invalidations| - 1];
      match (AllKeys(env, t, invalidations[..|invalidations| - 1]), InvalidationKeys(env, t, last.0, last.1))
      case (Some(before), Some(keys)) => Some(before + keys)
      case _ => None
  }

  lemma {:induction false} AllKeysThrow(env: Env, t: Tracking, invalidations: seq<(string, Params)>, i: nat)
    requires i < |invalidations| && InvalidationKeys(env, t, invalidations[i].0, invalidations[i].1).None?
    ensures AllKeys(env, t, invalidations).None?
  {
    if i < |invalidations| - 1 { AllKeysThrow(env, t, invalidations[..|invalidations| - 1], i); }
  }

  // A bulk invalidation deletes by the keys of each of its members.
  lemma {:induction false} AllKeysInclude(env: Env, t: Tracking, invalidations: seq<(string, Params)>, i: nat)
    requires i < |invalidations| && AllKeys(env, t, invalidations).Some?
    ensures InvalidationKeys(env, t, invalidations[i].0, invalidations[i].1).Some?
    ensures InvalidationKeys(env, t, invalidations[i].0, invalidations[i].1).value
         <= AllKeys(env, t, invalidations).value
  {
    if i < |invalidations| - 1 { AllKeysInclude(env, t, invalidations[..|invalidations| - 1], i); }
  }

  function AfterInvalidateMany(env: Env, t: Tracking, s: Store, invalidations: seq<(string, Params)>): Store {
    match AllKeys(env, t, invalidations)
    case Some(keys) => DelByMeta(s, keys)
    case None => s
  }

  method FileUnder(m: map<string, set<string>>, deps: set<string>, entity: string) returns (r: map<string, set<string>>)
    ensures r == map d | d in m.Keys + deps :: if d in deps then (if d in m then m[d] else {}) + {entity} else m[d]
  {
    r := m;
    var todo := deps;
    while todo != {}
      invariant todo <= deps
      invariant r == map d | d in m.Keys + (deps - todo) ::
        if d in deps - todo then (if d in m then m[d] else {}) + {entity} else m[d]
    {
      var dep :| dep in todo;
      todo := todo - {dep};
      if dep !in r { r := r[dep := {}]; }
      r := r[dep := r[dep] + {entity}];
    }
    assert deps - todo == deps;
  }

  // Parts of the key sets above, as the loops build them.

  function KeysUnder(h: Hasher, c: CacheConfig, p: Params, deps: set<string>): set<Key> {
    set d | d in deps && d in c.dependsOn && c.dependsOn[d] != [] :: NarrowKey(h, d, c.dependsOn[d], p)
  }

  lemma KeysUnderMore(h: Hasher, c: CacheConfig, p: Params, deps: set<string>, d: string)
    requires d in c.dependsOn
    ensures KeysUnder(h, c, p, deps + {d}) ==
      KeysUnder(h, c, p, deps) + if c.dependsOn[d] == [] then {} else {NarrowKey(h, d, c.dependsOn[d], p)}
  {
  }

  function OwnKeysAmong(h: Hasher, configs: set<CacheConfig>, q: Params): set<Key> {
    set c | c in configs && c.entity != "" && Complete(c.metaParams, q) :: NarrowKey(h, c.entity, c.metaParams, q)
  }

  lemma OwnKeysMore(h: Hasher, configs: set<CacheConfig>, c: CacheConfig, q: Params)
    ensures OwnKeysAmong(h, configs + {c}, q) ==
      OwnKeysAmong(h, configs, q)
      + if GenerateConfigMetaKey(h, c, q).Some? then {GenerateConfigMetaKey(h, c, q).value} else {}
  {
  }

  function KeysOn(h: Hasher, configs: set<CacheConfig>, entity: string, q: Params): set<Key> {
    set c | c in configs && entity in c.dependsOn && c.dependsOn[entity] != [] ::
      NarrowKey(h, entity, c.dependsOn[entity], q)
  }

  lemma KeysOnMore(h: Hasher, configs: set<CacheConfig>, c: CacheConfig, entity: string, q: Params)
    ensures KeysOn(h, configs + {c}, entity, q) ==
      KeysOn(h, configs, entity, q)
      + if entity in c.dependsOn && c.dependsOn[entity] != []
        then {NarrowKey(h, entity, c.dependsOn[entity], q)} else {}
  {
  }

  function KeysOfDependents(h: Hasher, t: Tracking, dependents: set<string>, entity: string, q: Params): set<Key> {
    set d, c | d in dependents && c in ConfigsOf(t, d) && entity in c.dependsOn && c.dependsOn[entity] != [] ::
      NarrowKey(h, entity, c.dependsOn[entity], q)
  }

  lemma KeysOfDependentsMore(h: Hasher, t: Tracking, dependents: set<string>, d: string, entity: string, q: Params)
    ensures KeysOfDependents(h, t, dependents + {d}, entity, q) ==
      KeysOfDependents(h, t, dependents, entity, q) + KeysOn(h, ConfigsOf(t, d), entity, q)
  {
  }
}
