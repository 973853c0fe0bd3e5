// Cascade invalidation from end to end: several service instances over one store, configurations
// built from one registry, writes, invalidations, deletions and time passing in any order.
module Cascade {
  import opened Options
  import opened EntityRegistration
  import opened CacheBuilding
  import opened KeyGeneration
  import opened RedisStore
  import opened CacheServices

  // The write that a data key last came from.
  datatype Origin = Origin(config: CacheConfig, params: Params)

  // `wrote`, `origin` and `writes` are history.
  datatype World = World(
    store: Store,
    instances: map<nat, Tracking>,
    wrote: map<Key, set<Key>>,
    origin: map<Key, Origin>,
    writes: set<Origin>
  )

  datatype Event =
    | See(instance: nat, config: CacheConfig)
    | Write(instance: nat, config: CacheConfig, params: Params, value: Option<string>, defaultGrace: real)
    | Invalidate(instance: nat, entity: string, params: Params)
    | Drop(config: CacheConfig, params: Params)
    | Pass(ms: nat)

  function InstanceOf(w: World, i: nat): Tracking {
    if i in w.instances then w.instances[i] else Tracking(map[], map[])
  }

  function Step(env: Env, w: World, e: Event): World {
    match e
    case See(i, c) => w.(instances := w.instances[i := Track(InstanceOf(w, i), c)])
    case Write(i, c, p, value, defaultGrace) =>
      var t := if GenerateCacheKey(env.h, c, p).Some? then Track(InstanceOf(w, i), c) else InstanceOf(w, i);
      var w' := w.(instances := w.instances[i := t], store := AfterWrite(env, w.store, c, p, value, defaultGrace));
      if WriteOutcome(env, c, p, value).Stored? then
        var k := GenerateCacheKey(env.h, c, p).value;
        w'.(wrote := w.wrote[k := EntryMetaKeys(env, c, p).value],
            origin := w.origin[k := Origin(c, p)], writes := w.writes + {Origin(c, p)})
      else w'
    case Invalidate(i, entity, q) => w.(store := AfterInvalidate(env, InstanceOf(w, i), w.store, entity, q))
    case Drop(c, p) =>
      (match GenerateCacheKey(env.h, c, p)
       case Some(k) => w.(store := Delete(w.store, {k}))
       case None => w)
    case Pass(ms) => w.(store := Tick(w.store, ms))
  }

  function Run(env: Env, w: World, events: seq<Event>): World
    decreases |events|
  {
    if events == [] then w else Run(env, Step(env, w, events[0]), events[1..])
  }

  const START := World(Store(map[], map[], 0), map[], map[], map[], {})

  ghost predicate BuilderMade(r: Registry, e: Event) { e.See? || e.Write? ==> Fits(r, e.config) }

  // What an event must satisfy: configurations come from the builder, and a write does not put an expiry
  // on a meta set that an entry needs for longer.
  ghost predicate Lawful(env: Env, r: Registry, w: World, e: Event) {
    && BuilderMade(r, e)
    && (e.Write? && WriteOutcome(env, e.config, e.params, e.value).Stored? ==>
          Harmless(w.store, w.wrote, StoreWrite(env, e)))
  }

  function StoreWrite(env: Env, e: Event): Operation
    requires e.Write? && WriteOutcome(env, e.config, e.params, e.value).Stored?
  {
    WriteWithMeta(GenerateCacheKey(env.h, e.config, e.params).value, Text(e.value),
                  Lifetime(e.config, e.defaultGrace), EntryMetaKeys(env, e.config, e.params).value)
  }

  ghost predicate AllLawful(env: Env, r: Registry, w: World, events: seq<Event>)
    decreases |events|
  {
    events == [] || (Lawful(env, r, w, events[0]) && AllLawful(env, r, Step(env, w, events[0]), events[1..]))
  }

  // Where an entry came from, and that it is filed under the meta keys of that write.
  ghost predicate Sourced(env: Env, r: Registry, w: World, k: Key) {
    && k in w.origin && k in w.wrote && w.origin[k] in w.writes
    && var o := w.origin[k];
       Genuine(env, r, o) && k == GenerateCacheKey(env.h, o.config, o.params).value
       && w.wrote[k] == EntryMetaKeys(env, o.config, o.params).value
  }

  // A write that could be stored.
  ghost predicate Genuine(env: Env, r: Registry, o: Origin) {
    && Fits(r, o.config)
    && GenerateCacheKey(env.h, o.config, o.params).Some?
    && EntryMetaKeys(env, o.config, o.params).Some?
  }

  // Some earlier write filed `k` under `m`.
  ghost predicate FiledOnce(env: Env, w: World, m: Key, k: Key) {
    exists o :: o in w.writes && GenerateCacheKey(env.h, o.config, o.params) == Some(k)
      && EntryMetaKeys(env, o.config, o.params).Some? && m in EntryMetaKeys(env, o.config, o.params).value
  }

  ghost predicate Filing(env: Env, r: Registry, w: World) {
    && (forall k :: k in w.store.data ==> Sourced(env, r, w, k))
    && (forall i :: i in w.instances ==> Filed(w.instances[i]))
    && (forall o :: o in w.writes ==> Genuine(env, r, o))
    && (forall m, k :: k in Members(w.store, m) ==> FiledOnce(env, w, m, k))
  }

  ghost predicate Inv(env: Env, r: Registry, w: World) { Filing(env, r, w) && Tracked(w.store, w.wrote) }

  lemma StoredWriteKeepsFiling(env: Env, r: Registry, w: World, e: Event)
    requires Filing(env, r, w) && e.Write? && BuilderMade(r, e)
    requires WriteOutcome(env, e.config, e.params, e.value).Stored?
    ensures Filing(env, r, Step(env, w, e))
  {
    var w' := Step(env, w, e);
    var k, ms := GenerateCacheKey(env.h, e.config, e.params).value, EntryMetaKeys(env, e.config, e.params).value;
    TrackKeepsFiled(InstanceOf(w, e.instance), e.config);
    var o := Origin(e.config, e.params);
    assert o in w'.writes;
    forall x | x in w'.store.data ensures Sourced(env, r, w', x) {
      if x != k { assert Sourced(env, r, w, x); }
    }
    forall m, x | x in Members(w'.store, m) ensures FiledOnce(env, w', m, x) {
      if x in Members(w.store, m) {
        assert FiledOnce(env, w, m, x);
      } else {
        assert x == k && m in ms;
      }
    }
  }

  lemma RemovalKeepsFiling(env: Env, r: Registry, w: World, op: Operation)
    requires Filing(env, r, w) && (op.DeleteKeys? || op.DeleteByMeta? || op.Wait?)
    ensures Filing(env, r, w.(store := Apply(w.store, op)))
  {
    var w' := w.(store := Apply(w.store, op));
    forall x | x in w'.store.data ensures Sourced(env, r, w', x) { assert Sourced(env, r, w, x); }
    forall m, x | x in Members(w'.store, m) ensures FiledOnce(env, w', m, x) {
      assert x in Members(w.store, m);
      assert FiledOnce(env, w, m, x);
    }
  }

  lemma InstanceKeepsFiling(env: Env, r: Registry, w: World, i: nat, t: Tracking)
    requires Filing(env, r, w) && Filed(t)
    ensures Filing(env, r, w.(instances := w.instances[i := t]))
  {
    var w' := w.(instances := w.instances[i := t]);
    forall x | x in w'.store.data ensures Sourced(env, r, w', x) { assert Sourced(env, r, w, x); }
    forall m, x | x in Members(w'.store, m) ensures FiledOnce(env, w', m, x) { assert FiledOnce(env, w, m, x); }
  }

  lemma SeeingKeepsFiling(env: Env, r: Registry, w: World, i: nat, c: CacheConfig)
    requires Filing(env, r, w)
    ensures Filing(env, r, w.(instances := w.instances[i := Track(InstanceOf(w, i), c)]))
    ensures Filing(env, r, w.(instances := w.instances[i := InstanceOf(w, i)]))
  {
    assert Filed(InstanceOf(w, i));
    TrackKeepsFiled(InstanceOf(w, i), c);
    InstanceKeepsFiling(env, r, w, i, Track(InstanceOf(w, i), c));
    InstanceKeepsFiling(env, r, w, i, InstanceOf(w, i));
  }

  // The store operation of an event that only removes.
  function Removal(env: Env, w: World, e: Event): Operation {
    match e
    case Invalidate(i, entity, q) =>
      (match InvalidationKeys(env, InstanceOf(w, i), entity, q)
       case Some(keys) => DeleteByMeta(keys)
       case None => Wait(0))
    case Drop(c, p) =>
      (match GenerateCacheKey(env.h, c, p) case Some(k) => DeleteKeys({k}) case None => Wait(0))
    case Pass(ms) => Wait(ms)
    case _ => Wait(0)
  }

  lemma RemovalOnly(env: Env, w: World, e: Event)
    requires !e.See? && !e.Write?
    ensures Step(env, w, e) == w.(store := Apply(w.store, Removal(env, w, e)))
  {
    assert w.store.(now := w.store.now + 0) == w.store;
  }

  lemma StepKeepsFiling(env: Env, r: Registry, w: World, e: Event)
    requires Filing(env, r, w) && BuilderMade(r, e)
    ensures Filing(env, r, Step(env, w, e))
  {
    if e.See? {
      SeeingKeepsFiling(env, r, w, e.instance, e.config);
    } else if e.Write? {
      if WriteOutcome(env, e.config, e.params, e.value).Stored? {
        StoredWriteKeepsFiling(env, r, w, e);
      } else {
        SeeingKeepsFiling(env, r, w, e.instance, e.config);
      }
    } else {
      RemovalOnly(env, w, e);
      RemovalKeepsFiling(env, r, w, Removal(env, w, e));
    }
  }

  lemma StepKeepsTrack(env: Env, r: Registry, w: World, e: Event)
    requires Tracked(w.store, w.wrote) && Lawful(env, r, w, e)
    ensures var w' := Step(env, w, e); Tracked(w'.store, w'.wrote)
  {
    if e.Write? {
      if WriteOutcome(env, e.config, e.params, e.value).Stored? {
        OperationKeepsTrack(w.store, w.wrote, StoreWrite(env, e));
      }
    } else if !e.See? {
      RemovalOnly(env, w, e);
      OperationKeepsTrack(w.store, w.wrote, Removal(env, w, e));
    }
  }

  lemma StepKeepsInv(env: Env, r: Registry, w: World, e: Event)
    requires Inv(env, r, w) && Lawful(env, r, w, e)
    ensures Inv(env, r, Step(env, w, e))
  {
    StepKeepsFiling(env, r, w, e);
    StepKeepsTrack(env, r, w, e);
  }

  lemma {:induction false} RunKeepsFiling(env: Env, r: Registry, w: World, events: seq<Event>)
    requires Filing(env, r, w) && forall i :: 0 <= i < |events| ==> BuilderMade(r, events[i])
    ensures Filing(env, r, Run(env, w, events))
    decreases |events|
  {
    if events != [] {
      StepKeepsFiling(env, r, w, events[0]);
      RunKeepsFiling(env, r, Step(env, w, events[0]), events[1..]);
    }
  }

  lemma {:induction false} RunKeepsInv(env: Env, r: Registry, w: World, events: seq<Event>)
    requires Inv(env, r, w) && AllLawful(env, r, w, events)
    ensures Inv(env, r, Run(env, w, events))
    decreases |events|
  {
    if events != [] {
      StepKeepsInv(env, r, w, events[0]);
      RunKeepsInv(env, r, Step(env, w, events[0]), events[1..]);
    }
  }

  lemma ReachableInv(env: Env, r: Registry, events: seq<Event>)
    requires AllLawful(env, r, START, events)
    ensures Inv(env, r, Run(env, START, events))
  {
    RunKeepsInv(env, r, START, events);
  }

  lemma ReachableFiling(env: Env, r: Registry, events: seq<Event>)
    requires forall i :: 0 <= i < |events| ==> BuilderMade(r, events[i])
    ensures Filing(env, r, Run(env, START, events))
  {
    RunKeepsFiling(env, r, START, events);
  }

  // Builder-made configurations suffice when every write gives its entry a lifetime.
  lemma {:induction false} ExpiringRunsAreLawful(env: Env, r: Registry, w: World, events: seq<Event>)
    requires AllExpire(w.store)
    requires forall i :: 0 <= i < |events| ==> BuilderMade(r, events[i])
    requires forall i :: 0 <= i < |events| && events[i].Write? ==>
      Lifetime(events[i].config, events[i].defaultGrace) > 0.0
    ensures AllLawful(env, r, w, events)
    decreases |events|
  {
    if events != [] {
      var e := events[0];
      if e.Write? && WriteOutcome(env, e.config, e.params, e.value).Stored? {
        ExpiringWriteIsHarmless(w.store, w.wrote, StoreWrite(env, e));
      }
      ExpiringRunsAreLawful(env, r, Step(env, w, e), events[1..]);
    }
  }

  // ---------------------------------------------------------------------
  // Completeness
  // ---------------------------------------------------------------------

  // The parameters of an invalidation of `entity` reach an entry of `c` written with `p`.
  predicate Reaches(c: CacheConfig, p: Params, entity: string, q: Params) {
    || (entity == c.entity && Agree(p, q, c.metaParams))
    || (entity in c.dependsOn && c.dependsOn[entity] != [] && Agree(p, q, c.dependsOn[entity]))
  }

  lemma OwnKeysMeet(env: Env, t: Tracking, c: CacheConfig, p: Params, q: Params)
    requires Seen(t, c) && c.entity != "" && Complete(c.metaParams, p) && Agree(p, q, c.metaParams)
    ensures NarrowKey(env.h, c.entity, c.metaParams, p) in OwnKeys(env.h, t, c.entity, q)
  {
    assert Extract(c.metaParams, p) == Extract(c.metaParams, q);
    assert Complete(c.metaParams, q);
  }

  lemma DependentKeysMeet(env: Env, t: Tracking, c: CacheConfig, p: Params, entity: string, q: Params)
    requires Filed(t) && Seen(t, c)
    requires entity in c.dependsOn && c.dependsOn[entity] != [] && Agree(p, q, c.dependsOn[entity])
    ensures var m := NarrowKey(env.h, entity, c.dependsOn[entity], p);
      m in DependencyKeys(env.h, c, p) && m in DependentKeys(env.h, t, entity, q)
  {
    assert Extract(c.dependsOn[entity], p) == Extract(c.dependsOn[entity], q);
    assert c.entity in DependentsOf(t, entity);
  }

  // The keys looked up include a key the entry was written under.
  lemma KeysMeet(env: Env, t: Tracking, c: CacheConfig, p: Params, entity: string, q: Params)
    requires Filed(t) && Seen(t, c)
    requires EntryMetaKeys(env, c, p).Some? && InvalidationKeys(env, t, entity, q).Some?
    requires Reaches(c, p, entity, q)
    ensures exists m :: m in EntryMetaKeys(env, c, p).value && m in InvalidationKeys(env, t, entity, q).value
  {
    if entity == c.entity && Agree(p, q, c.metaParams) {
      OwnKeysMeet(env, t, c, p, q);
      var m := NarrowKey(env.h, c.entity, c.metaParams, p);
      assert m in EntryMetaKeys(env, c, p).value && m in InvalidationKeys(env, t, entity, q).value;
    } else {
      DependentKeysMeet(env, t, c, p, entity, q);
      var m := NarrowKey(env.h, entity, c.dependsOn[entity], p);
      assert m in EntryMetaKeys(env, c, p).value && m in InvalidationKeys(env, t, entity, q).value;
    }
  }

  // An entry tracked under one of the keys is deleted.
  lemma TrackedEntryIsDeleted(s: Store, k: Key, m: Key, keys: set<Key>)
    requires TrackedBy(s, k, m) && m in keys
    ensures k !in DelByMeta(s, keys).data
  {
    assert k in Victims(s, keys);
  }

  // An instance has seen the configuration of entry `k`, and its invalidation names the entity, yields no
  // empty tag and reaches the parameters of the entry.
  ghost predicate Covers(env: Env, w: World, i: nat, entity: string, q: Params, k: Key) {
    && Live(w.store, k) && k in w.origin && Seen(InstanceOf(w, i), w.origin[k].config)
    && Reaches(w.origin[k].config, w.origin[k].params, entity, q)
    && entity != "" && !(entity in env.invalidationTags && "" in env.tagsOf(env.invalidationTags[entity], q))
  }

  lemma CoveredEntryIsDeleted(env: Env, r: Registry, w: World, i: nat, entity: string, q: Params, k: Key)
    requires Inv(env, r, w) && Covers(env, w, i, entity, q, k)
    ensures k !in AfterInvalidate(env, InstanceOf(w, i), w.store, entity, q).data
  {
    var o, t := w.origin[k], InstanceOf(w, i);
    assert Sourced(env, r, w, k);
    InvalidationThrowsExactly(env, t, entity, q);
    KeysMeet(env, t, o.config, o.params, entity, q);
    var m :| m in EntryMetaKeys(env, o.config, o.params).value && m in InvalidationKeys(env, t, entity, q).value;
    assert m in w.wrote[k];
    assert TrackedBy(w.store, k, m);
    TrackedEntryIsDeleted(w.store, k, m, InvalidationKeys(env, t, entity, q).value);
  }

  lemma CoveredEntriesAreDeleted(env: Env, r: Registry, w: World, i: nat, entity: string, q: Params)
    requires Inv(env, r, w)
    ensures forall k :: Covers(env, w, i, entity, q, k) ==> k !in Step(env, w, Invalidate(i, entity, q)).store.data
  {
    forall k | Covers(env, w, i, entity, q, k) ensures k !in Step(env, w, Invalidate(i, entity, q)).store.data {
      CoveredEntryIsDeleted(env, r, w, i, entity, q, k);
    }
  }

  // On any instance that has seen the configuration, an invalidation removes every live entry its
  // parameters reach, whichever instance wrote it.
  lemma InvalidationIsComplete(env: Env, r: Registry, events: seq<Event>, i: nat, entity: string, q: Params)
    requires AllLawful(env, r, START, events)
    ensures var w := Run(env, START, events);
      forall k :: Covers(env, w, i, entity, q, k) ==> k !in Step(env, w, Invalidate(i, entity, q)).store.data
  {
    ReachableInv(env, r, events);
    CoveredEntriesAreDeleted(env, r, Run(env, START, events), i, entity, q);
  }

  // Passing all of the invalidated entity's parameters is enough: only the values that the entry has for
  // them too must be its own.
  lemma FullParametersReach(r: Registry, c: CacheConfig, p: Params, entity: string, q: Params)
    requires WellFormed(r) && Fits(r, c) && entity in r.entities
    requires forall x :: x in r.entities[entity].params && x in c.params ==> Lookup(p, x) == Lookup(q, x)
    requires entity == c.entity || (entity in c.dependsOn && c.dependsOn[entity] != [])
    ensures Reaches(c, p, entity, q)
  {
    if entity == c.entity {
      assert c.metaParams <= c.params;
    } else {
      assert Shared(r, c.entity, entity, c.dependsOn[entity]);
    }
  }

  // ---------------------------------------------------------------------
  // Precision
  // ---------------------------------------------------------------------

  // No parameter object has a member named "entity".
  predicate Plain(p: Params) { "entity" !in p }

  // A meta key looked up by an invalidation tells the entity and, of the parameters, only values of `q`.
  ghost predicate Tells(h: Hasher, m: Key, entity: string, q: Params) {
    exists f: map<string, string> :: m == MetaKey(h(MetaMaterial(f))) && "entity" in f && f["entity"] == entity
      && forall x :: x in f && x != "entity" ==> Lookup(q, x) == Defined(f[x])
  }

  lemma NarrowKeyTells(h: Hasher, entity: string, keys: seq<string>, q: Params)
    requires Plain(q)
    ensures Tells(h, NarrowKey(h, entity, keys, q), entity, q)
  {
    var p := AsParams(Extract(keys, q));
    FieldsTell(entity, p);
    var f := MetaFields(entity, p);
    forall x | x in f && x != "entity" ensures Lookup(q, x) == Defined(f[x]) {
      assert Lookup(p, x).Defined?;
    }
    assert NarrowKey(h, entity, keys, q) == MetaKey(h(MetaMaterial(f)));
  }

  lemma LookupsTell(env: Env, t: Tracking, entity: string, q: Params, m: Key)
    requires Filed(t) && Plain(q) && EntityTags(env, entity, q) == []
    requires InvalidationKeys(env, t, entity, q).Some? && m in InvalidationKeys(env, t, entity, q).value
    ensures Tells(env.h, m, entity, q)
  {
    FieldsTell(entity, q);
    if m == MetaKeyOf(env.h, entity, q) {
      var f := MetaFields(entity, q);
      assert m == MetaKey(env.h(MetaMaterial(f)));
    } else if m in OwnKeys(env.h, t, entity, q) {
      var c :| c in ConfigsOf(t, entity) && m == NarrowKey(env.h, c.entity, c.metaParams, q);
      NarrowKeyTells(env.h, entity, c.metaParams, q);
    } else {
      assert m in DependentKeys(env.h, t, entity, q);
      var d, c :| d in DependentsOf(t, entity) && c in ConfigsOf(t, d) && entity in c.dependsOn
        && m == NarrowKey(env.h, entity, c.dependsOn[entity], q);
      NarrowKeyTells(env.h, entity, c.dependsOn[entity], q);
    }
  }

  // An entry's narrow key that tells `entity` and values of `q` has q's values under all its keys.
  lemma TellingKeyAgrees(h: Hasher, e: string, keys: seq<string>, p: Params, entity: string, q: Params)
    requires Injective(h) && Plain(p) && Complete(keys, p)
    requires Tells(h, NarrowKey(h, e, keys, p), entity, q)
    ensures e == entity && Agree(p, q, keys)
  {
    var f :| NarrowKey(h, e, keys, p) == MetaKey(h(MetaMaterial(f))) && "entity" in f && f["entity"] == entity
      && forall x :: x in f && x != "entity" ==> Lookup(q, x) == Defined(f[x]);
    var p' := AsParams(Extract(keys, p));
    FieldsTell(e, p');
    assert MetaMaterial(f) == MetaMaterial(MetaFields(e, p'));
    assert f == MetaFields(e, p');
    forall x | x in keys ensures Lookup(p, x) == Lookup(q, x) {
      assert Lookup(p', x) == Lookup(p, x);
      assert x in f;
    }
  }

  // A write without explicit dependency lists or a parameter named "entity".
  ghost predicate Unoverridden(r: Registry, o: Origin) { CoversScopes(r, o.config) && Plain(o.params) }

  // The values of `o` under the scope parameters of `entity` are those of `q`, and its cache key carries them.
  ghost predicate WithinScope(r: Registry, o: Origin, entity: string, q: Params) {
    && entity in r.entities && r.entities[entity].scope in r.scopes
    && Agree(o.params, q, ScopeParams(r, entity))
    && forall x :: x in ScopeParams(r, entity) ==> x in o.config.params
  }

  lemma MeetingKeyIsWithinScope(env: Env, r: Registry, o: Origin, m: Key, entity: string, q: Params)
    requires WellFormed(r) && Injective(env.h) && Genuine(env, r, o) && Unoverridden(r, o)
    requires m in EntryMetaKeys(env, o.config, o.params).value && Tells(env.h, m, entity, q)
    ensures WithinScope(r, o, entity, q)
  {
    var c, p := o.config, o.params;
    assert m.MetaKey? && m !in TagKeys(env.h, EntryTags(env, c, p));
    if m == NarrowKey(env.h, c.entity, c.metaParams, p) {
      TellingKeyAgrees(env.h, c.entity, c.metaParams, p, entity, q);
      assert c.metaParams <= c.params;
    } else {
      assert m in DependencyKeys(env.h, c, p);
      var d :| d in c.dependsOn && m == NarrowKey(env.h, d, c.dependsOn[d], p);
      assert Shared(r, c.entity, d, c.dependsOn[d]);
      assert CoversScope(r, d, c.dependsOn[d]);
      TellingKeyAgrees(env.h, d, c.dependsOn[d], p, entity, q);
    }
  }

  // Two writes to one cache key have the same parameter values.
  lemma SameKeySameParams(env: Env, r: Registry, a: Origin, b: Origin)
    requires Injective(env.h) && Genuine(env, r, a) && Genuine(env, r, b)
    requires GenerateCacheKey(env.h, a.config, a.params) == GenerateCacheKey(env.h, b.config, b.params)
    ensures a.config.params == b.config.params && Agree(a.params, b.params, a.config.params)
  {
    var ma := CacheMaterial(a.config.entity, Extract(a.config.params, a.params));
    var mb := CacheMaterial(b.config.entity, Extract(b.config.params, b.params));
    assert env.h(ma) == env.h(mb);
    assert ma == mb;
    forall x | x in a.config.params ensures Lookup(a.params, x) == Lookup(b.params, x) {
      assert x in Extract(a.config.params, a.params);
    }
  }

  lemma DeletedEntryIsWithinScope(env: Env, r: Registry, w: World, i: nat, entity: string, q: Params, k: Key)
    requires WellFormed(r) && Injective(env.h) && Plain(q) && EntityTags(env, entity, q) == []
    requires Filing(env, r, w) && forall o :: o in w.writes ==> Unoverridden(r, o)
    requires k in w.store.data && k !in AfterInvalidate(env, InstanceOf(w, i), w.store, entity, q).data
    ensures k in w.origin && WithinScope(r, w.origin[k], entity, q)
  {
    var keys := InvalidationKeys(env, InstanceOf(w, i), entity, q).value;
    assert Sourced(env, r, w, k);
    var m :| m in keys && k in Members(w.store, m);
    LookupsTell(env, InstanceOf(w, i), entity, q, m);
    assert FiledOnce(env, w, m, k);
    var o :| o in w.writes && GenerateCacheKey(env.h, o.config, o.params) == Some(k) &&
      m in EntryMetaKeys(env, o.config, o.params).value;
    MeetingKeyIsWithinScope(env, r, o, m, entity, q);
    SameKeySameParams(env, r, o, w.origin[k]);
  }

  lemma {:induction false} RunKeepsUnoverridden(env: Env, r: Registry, w: World, events: seq<Event>)
    requires forall o :: o in w.writes ==> Unoverridden(r, o)
    requires forall j :: 0 <= j < |events| && events[j].Write? ==>
      Unoverridden(r, Origin(events[j].config, events[j].params))
    ensures forall o :: o in Run(env, w, events).writes ==> Unoverridden(r, o)
    decreases |events|
  {
    if events != [] {
      RunKeepsUnoverridden(env, r, Step(env, w, events[0]), events[1..]);
    }
  }

  lemma DeletedEntriesAreWithinScope(env: Env, r: Registry, w: World, i: nat, entity: string, q: Params)
    requires WellFormed(r) && Injective(env.h) && Plain(q) && EntityTags(env, entity, q) == []
    requires Filing(env, r, w) && forall o :: o in w.writes ==> Unoverridden(r, o)
    ensures var w' := Step(env, w, Invalidate(i, entity, q));
      forall k :: k in w.store.data && k !in w'.store.data ==> k in w.origin && WithinScope(r, w.origin[k], entity, q)
  {
    var w' := Step(env, w, Invalidate(i, entity, q));
    forall k | k in w.store.data && k !in w'.store.data
      ensures k in w.origin && WithinScope(r, w.origin[k], entity, q)
    {
      DeletedEntryIsWithinScope(env, r, w, i, entity, q, k);
    }
  }

  // With an injective hash, no tags and no explicit dependency lists, an invalidation removes no
  // entry outside the scope it names.
  lemma InvalidationIsPrecise(env: Env, r: Registry, events: seq<Event>, i: nat, entity: string, q: Params)
    requires WellFormed(r) && Injective(env.h) && Plain(q) && EntityTags(env, entity, q) == []
    requires forall j :: 0 <= j < |events| ==> BuilderMade(r, events[j])
    requires forall j :: 0 <= j < |events| && events[j].Write? ==>
      Unoverridden(r, Origin(events[j].config, events[j].params))
    ensures var w := Run(env, START, events); var w' := Step(env, w, Invalidate(i, entity, q));
      forall k :: k in w.store.data && k !in w'.store.data ==> k in w.origin && WithinScope(r, w.origin[k], entity, q)
  {
    ReachableFiling(env, r, events);
    RunKeepsUnoverridden(env, r, START, events);
    DeletedEntriesAreWithinScope(env, r, Run(env, START, events), i, entity, q);
  }

  // ---------------------------------------------------------------------
  // Which entries an instance finds, whatever it has seen
  // ---------------------------------------------------------------------

  // The parameter lists an entry of `c` is filed under for `entity`.
  function EntryLists(c: CacheConfig, entity: string): set<seq<string>> {
    (if entity == c.entity then {c.metaParams} else {})
    + (if entity in c.dependsOn && c.dependsOn[entity] != [] then {c.dependsOn[entity]} else {})
  }

  // The parameter lists an invalidation of `entity` looks up, from the configurations seen.
  function LookupLists(t: Tracking, entity: string, q: Params): set<seq<string>> {
    (set c | c in ConfigsOf(t, entity) && Complete(c.metaParams, q) :: c.metaParams)
    + (set d, c | d in DependentsOf(t, entity) && c in ConfigsOf(t, d)
                  && entity in c.dependsOn && c.dependsOn[entity] != [] :: c.dependsOn[entity])
  }

  // The values `fields` are all those of `q`, or those of `q` under a list looked up.
  ghost predicate LookedUp(t: Tracking, entity: string, q: Params, fields: map<string, string>) {
    fields == Clean(q) || exists keys :: keys in LookupLists(t, entity, q) && fields == Extract(keys, q)
  }

  ghost predicate SharesTag(env: Env, c: CacheConfig, p: Params, entity: string, q: Params) {
    exists tag :: tag in EntryTags(env, c, p) && tag in EntityTags(env, entity, q)
  }

  lemma MetaKeysTell(h: Hasher, e: string, p: Params, e': string, p': Params)
    requires Injective(h) && Plain(p) && Plain(p')
    ensures MetaKeyOf(h, e, p) == MetaKeyOf(h, e', p') <==> e == e' && Clean(p) == Clean(p')
  {
    var f, f' := MetaFields(e, p), MetaFields(e', p');
    assert f == Clean(p)["entity" := e] && f' == Clean(p')["entity" := e'];
    assert Clean(p) == f - {"entity"} && Clean(p') == f' - {"entity"};
    if MetaKeyOf(h, e, p) == MetaKeyOf(h, e', p') {
      assert MetaMaterial(f) == MetaMaterial(f');
      assert f["entity"] == f'["entity"];
    }
  }

  lemma CleanExtract(keys: seq<string>, p: Params)
    requires Plain(p)
    ensures Plain(AsParams(Extract(keys, p))) && Clean(AsParams(Extract(keys, p))) == Extract(keys, p)
  {
  }

  // A narrow key of an entry is looked up exactly when its values are.
  lemma NarrowKeyIsLookedUpExactly(env: Env, t: Tracking, e: string, keys: seq<string>, p: Params,
                                   entity: string, q: Params)
    requires Injective(env.h) && Plain(p) && Plain(q) && Filed(t) && InvalidationKeys(env, t, entity, q).Some?
    ensures NarrowKey(env.h, e, keys, p) in InvalidationKeys(env, t, entity, q).value <==>
      e == entity && LookedUp(t, entity, q, Extract(keys, p))
  {
    var m, fields := NarrowKey(env.h, e, keys, p), Extract(keys, p);
    CleanExtract(keys, p);
    MetaKeysTell(env.h, e, AsParams(fields), entity, q);
    forall keys' ensures m == NarrowKey(env.h, entity, keys', q) <==> e == entity && fields == Extract(keys', q) {
      CleanExtract(keys', q);
      MetaKeysTell(env.h, e, AsParams(fields), entity, AsParams(Extract(keys', q)));
    }
    NarrowLookups(env, t, entity, q, m);
    assert m.MetaKey? && m !in TagKeys(env.h, EntityTags(env, entity, q));
    if exists keys' :: keys' in LookupLists(t, entity, q) && m == NarrowKey(env.h, entity, keys', q) {
      var keys' :| keys' in LookupLists(t, entity, q) && m == NarrowKey(env.h, entity, keys', q);
      assert fields == Extract(keys', q);
    }
    if e == entity && exists keys' :: keys' in LookupLists(t, entity, q) && fields == Extract(keys', q) {
      var keys' :| keys' in LookupLists(t, entity, q) && fields == Extract(keys', q);
      assert m == NarrowKey(env.h, entity, keys', q);
    }
  }

  lemma NarrowLookups(env: Env, t: Tracking, entity: string, q: Params, m: Key)
    requires Filed(t) && entity != ""
    ensures m in OwnKeys(env.h, t, entity, q) + DependentKeys(env.h, t, entity, q) <==>
      exists keys :: keys in LookupLists(t, entity, q) && m == NarrowKey(env.h, entity, keys, q)
  {
    if m in OwnKeys(env.h, t, entity, q) {
      var c :| c in ConfigsOf(t, entity) && Complete(c.metaParams, q) &&
        m == NarrowKey(env.h, c.entity, c.metaParams, q);
      assert c.metaParams in LookupLists(t, entity, q);
    }
    if m in DependentKeys(env.h, t, entity, q) {
      var d, c :| d in DependentsOf(t, entity) && c in ConfigsOf(t, d) && entity in c.dependsOn
        && c.dependsOn[entity] != [] && m == NarrowKey(env.h, entity, c.dependsOn[entity], q);
      assert c.dependsOn[entity] in LookupLists(t, entity, q);
    }
  }

  ghost predicate SharesList(t: Tracking, c: CacheConfig, p: Params, entity: string, q: Params) {
    exists keys :: keys in EntryLists(c, entity) && LookedUp(t, entity, q, Extract(keys, p))
  }

  lemma TagIsLookedUp(env: Env, t: Tracking, c: CacheConfig, p: Params, entity: string, q: Params, m: Key)
    requires Injective(env.h) && m in TagKeys(env.h, EntryTags(env, c, p))
    requires InvalidationKeys(env, t, entity, q).Some? && m in InvalidationKeys(env, t, entity, q).value
    ensures SharesTag(env, c, p, entity, q)
  {
    var tag :| tag in EntryTags(env, c, p) && m == TagKey(env.h(TagMaterial(tag)));
    var tag' :| tag' in EntityTags(env, entity, q) && m == TagKey(env.h(TagMaterial(tag')));
    assert TagMaterial(tag) == TagMaterial(tag');
  }

  lemma FoundKeyIsShared(env: Env, t: Tracking, c: CacheConfig, p: Params, entity: string, q: Params, m: Key)
    requires Injective(env.h) && Plain(p) && Plain(q) && Filed(t)
    requires EntryMetaKeys(env, c, p).Some? && InvalidationKeys(env, t, entity, q).Some?
    requires m in EntryMetaKeys(env, c, p).value && m in InvalidationKeys(env, t, entity, q).value
    ensures SharesTag(env, c, p, entity, q) || SharesList(t, c, p, entity, q)
  {
    if m in TagKeys(env.h, EntryTags(env, c, p)) {
      TagIsLookedUp(env, t, c, p, entity, q, m);
    } else if m == NarrowKey(env.h, c.entity, c.metaParams, p) {
      NarrowKeyIsLookedUpExactly(env, t, c.entity, c.metaParams, p, entity, q);
      assert c.metaParams in EntryLists(c, entity);
    } else {
      var d :| d in c.dependsOn && c.dependsOn[d] != [] && m == NarrowKey(env.h, d, c.dependsOn[d], p);
      NarrowKeyIsLookedUpExactly(env, t, d, c.dependsOn[d], p, entity, q);
      assert c.dependsOn[d] in EntryLists(c, entity);
    }
  }

  lemma SharedKeyIsFound(env: Env, t: Tracking, c: CacheConfig, p: Params, entity: string, q: Params) returns (m: Key)
    requires Injective(env.h) && Plain(p) && Plain(q) && Filed(t)
    requires EntryMetaKeys(env, c, p).Some? && InvalidationKeys(env, t, entity, q).Some?
    requires SharesTag(env, c, p, entity, q) || SharesList(t, c, p, entity, q)
    ensures m in EntryMetaKeys(env, c, p).value && m in InvalidationKeys(env, t, entity, q).value
  {
    if SharesTag(env, c, p, entity, q) {
      var tag :| tag in EntryTags(env, c, p) && tag in EntityTags(env, entity, q);
      m := TagKey(env.h(TagMaterial(tag)));
    } else {
      var keys :| keys in EntryLists(c, entity) && LookedUp(t, entity, q, Extract(keys, p));
      m := NarrowKey(env.h, entity, keys, p);
      NarrowKeyIsLookedUpExactly(env, t, entity, keys, p, entity, q);
    }
  }

  // An invalidation looks up a key of an entry exactly when they share a tag, or when the values it
  // looks up match those of the entry under one of the entry's lists for the invalidated entity.
  lemma EntryIsFoundExactly(env: Env, t: Tracking, c: CacheConfig, p: Params, entity: string, q: Params)
    requires Injective(env.h) && Plain(p) && Plain(q) && Filed(t)
    requires EntryMetaKeys(env, c, p).Some? && InvalidationKeys(env, t, entity, q).Some?
    ensures (exists m :: m in EntryMetaKeys(env, c, p).value && m in InvalidationKeys(env, t, entity, q).value) <==>
      SharesTag(env, c, p, entity, q) || SharesList(t, c, p, entity, q)
  {
    if SharesTag(env, c, p, entity, q) || SharesList(t, c, p, entity, q) {
      var m := SharedKeyIsFound(env, t, c, p, entity, q);
    }
    if m :| m in EntryMetaKeys(env, c, p).value && m in InvalidationKeys(env, t, entity, q).value {
      FoundKeyIsShared(env, t, c, p, entity, q, m);
    }
  }

  lemma AllValuesMatch(keys: seq<string>, p: Params, q: Params)
    requires Complete(keys, p)
    ensures Extract(keys, p) == Clean(q) <==> (forall x :: Lookup(q, x).Defined? <==> x in keys) && Agree(p, q, keys)
  {
    var fields := Extract(keys, p);
    if fields == Clean(q) {
      forall x ensures Lookup(q, x).Defined? <==> x in keys { assert x in fields <==> x in Clean(q); }
      forall x | x in keys ensures Lookup(p, x) == Lookup(q, x) { assert fields[x] == Clean(q)[x]; }
    }
  }

  // An instance that has seen no configuration at all finds an untagged entry of the entity only when it
  // is given exactly the scope parameters, which is why configurations are tracked on reads too.
  lemma UnseenConfigurationIsFoundExactly(env: Env, c: CacheConfig, p: Params, q: Params)
    requires Injective(env.h) && Plain(p) && Plain(q) && EntityTags(env, c.entity, q) == []
    requires EntryMetaKeys(env, c, p).Some? && c.entity !in c.dependsOn
    ensures var t := Tracking(map[], map[]);
      (exists m :: m in EntryMetaKeys(env, c, p).value && m in InvalidationKeys(env, t, c.entity, q).value) <==>
        (forall x :: Lookup(q, x).Defined? <==> x in c.metaParams) && Agree(p, q, c.metaParams)
  {
    var t := Tracking(map[], map[]);
    EntryIsFoundExactly(env, t, c, p, c.entity, q);
    assert LookupLists(t, c.entity, q) == {};
    assert EntryLists(c, c.entity) == {c.metaParams};
    assert !SharesTag(env, c, p, c.entity, q);
    AllValuesMatch(c.metaParams, p, q);
  }

  lemma FirstWrite(env: Env, c: CacheConfig, p: Params, value: Option<string>, grace: real)
    requires WriteOutcome(env, c, p, value).Stored? && Lifetime(c, grace) > 0.0
    ensures var w := Step(env, START, Write(0, c, p, value, grace));
      && Live(w.store, GenerateCacheKey(env.h, c, p).value)
      && w.store.metas.Keys == EntryMetaKeys(env, c, p).value
      && InstanceOf(w, 1) == Tracking(map[], map[])
  {
    CeilBounds(Lifetime(c, grace) * 1000.0);
  }

  // An invalidation by keys that list nothing removes nothing.
  lemma UnlistedKeysDeleteNothing(env: Env, w: World, i: nat, entity: string, q: Params, k: Key)
    requires Live(w.store, k) && InvalidationKeys(env, InstanceOf(w, i), entity, q).Some?
    requires InvalidationKeys(env, InstanceOf(w, i), entity, q).value !! w.store.metas.Keys
    ensures Live(Step(env, w, Invalidate(i, entity, q)).store, k)
  {
    assert Victims(w.store, InvalidationKeys(env, InstanceOf(w, i), entity, q).value) == {};
  }

  // An instance that has seen nothing leaves an entry alone unless given exactly its meta parameters.
  lemma UnseenInstanceMisses(env: Env, c: CacheConfig, p: Params, value: Option<string>, grace: real, q: Params)
    requires Injective(env.h) && Plain(p) && Plain(q) && EntityTags(env, c.entity, q) == []
    requires WriteOutcome(env, c, p, value).Stored? && c.entity !in c.dependsOn && Lifetime(c, grace) > 0.0
    requires !((forall x :: Lookup(q, x).Defined? <==> x in c.metaParams) && Agree(p, q, c.metaParams))
    ensures var w, k := Step(env, START, Write(0, c, p, value, grace)), GenerateCacheKey(env.h, c, p).value;
      Live(w.store, k) && Live(Step(env, w, Invalidate(1, c.entity, q)).store, k)
  {
    var w := Step(env, START, Write(0, c, p, value, grace));
    FirstWrite(env, c, p, value, grace);
    UnseenConfigurationIsFoundExactly(env, c, p, q);
    UnlistedKeysDeleteNothing(env, w, 1, c.entity, q, GenerateCacheKey(env.h, c, p).value);
  }

  const ACCOUNTS := Registry(
    map["account" := ScopeDefinition("account", ["a"])], ["account"],
    map["Item" := EntityDefinition("Item", "account", ["i"], ["a", "i"])])

  const ITEMS := CacheConfig("Item", "account", 60.0, 0.0, ["a", "i"], ["a"], map[], false, None)

  const ITEM: Params := map["a" := Defined("1"), "i" := Defined("2")]

  lemma ItemsFit()
    ensures WellFormed(ACCOUNTS) && Fits(ACCOUNTS, ITEMS)
  {
    assert ["a"] + ["i"] == ["a", "i"];
  }

  lemma ItemIsPlain()
    ensures Plain(ITEM) && Complete(ITEMS.params, ITEM) && Complete(ITEMS.metaParams, ITEM)
    ensures Lookup(ITEM, "i").Defined? && "i" !in ITEMS.metaParams
  {
    assert "a"[0] != "i"[0] && |"a"| != |"entity"| && |"i"| != |"entity"|;
  }

  // An entry written by one instance survives an invalidation with all of its parameters by an instance
  // that has seen no configuration.
  lemma UnseenEntrySurvives(env: Env)
    requires Injective(env.h) && env.invalidationTags == map[]
    ensures Fits(ACCOUNTS, ITEMS) && GenerateCacheKey(env.h, ITEMS, ITEM).Some?
    ensures
      var w := Step(env, START, Write(0, ITEMS, ITEM, Some("v"), 0.0));
      var k := GenerateCacheKey(env.h, ITEMS, ITEM).value;
      Live(w.store, k) && Live(Step(env, w, Invalidate(1, "Item", ITEM)).store, k)
  {
    ItemsFit();
    ItemIsPlain();
    UnseenInstanceMisses(env, ITEMS, ITEM, Some("v"), 0.0, ITEM);
  }
}
