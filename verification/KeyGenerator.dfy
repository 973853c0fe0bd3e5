// Cache keys and meta keys. Stable stringification makes the material of a key canonical; the hash
// is any function of the material.
module KeyGeneration {
  import opened Options
  import opened CacheBuilding

  // A parameter object may hold undefined values; they count as absent.
  datatype Value = Undefined | Defined(text: string)

  type Params = map<string, Value>

  datatype Material =
    | CacheMaterial(name: string, params: map<string, string>)
    | MetaMaterial(fields: map<string, string>)
    | TagMaterial(tag: string)

  type Hasher = Material -> string

  // The three key families have distinct prefixes, and hashes contain no separator.
  datatype Key = CacheKey(hash: string) | MetaKey(hash: string) | TagKey(hash: string)

  function Lookup(p: Params, k: string): Value { if k in p then p[k] else Undefined }

  predicate Complete(keys: seq<string>, p: Params) { forall k :: k in keys ==> Lookup(p, k).Defined? }

  // The defined values of `p` under `keys`.
  function Extract(keys: seq<string>, p: Params): map<string, string> {
    map k | k in keys && Lookup(p, k).Defined? :: Lookup(p, k).text
  }

  // The defined entries of a parameter object.
  function Clean(p: Params): map<string, string> {
    map k | k in p && p[k].Defined? :: p[k].text
  }

  // The entity and all parameters, where a parameter of that name overwrites the entity.
  function MetaFields(entity: string, p: Params): map<string, string> {
    Clean(map["entity" := Defined(entity)] + p)
  }

  function AsParams(m: map<string, string>): Params { map k | k in m :: Defined(m[k]) }

  // None models a thrown error.
  function GenerateMetaKey(h: Hasher, entity: string, p: Params): Option<Key> {
    if entity == "" then None else Some(MetaKey(h(MetaMaterial(MetaFields(entity, p)))))
  }

  function GenerateCacheKey(h: Hasher, c: CacheConfig, p: Params): Option<Key> {
    if c.entity != "" && Complete(c.params, p)
    then Some(CacheKey(h(CacheMaterial(c.entity, Extract(c.params, p)))))
    else None
  }

  function GenerateConfigMetaKey(h: Hasher, c: CacheConfig, p: Params): Option<Key> {
    if Complete(c.metaParams, p) then GenerateMetaKey(h, c.entity, AsParams(Extract(c.metaParams, p))) else None
  }

  function GenerateTagMetaKey(h: Hasher, tag: string): Option<Key> {
    if tag == "" then None else Some(TagKey(h(TagMaterial(tag))))
  }

  // Collects the values under `keys` and the keys that have none.
  method CollectParams(keys: seq<string>, p: Params) returns (extracted: map<string, string>, missing: seq<string>)
    ensures extracted == Extract(keys, p)
    ensures missing == [] <==> Complete(keys, p)
  {
    extracted, missing := map[], [];
    for i := 0 to |keys|
      invariant extracted == Extract(keys[..i], p)
      invariant missing == [] <==> Complete(keys[..i], p)
    {
      var value := Lookup(p, keys[i]);
      assert forall k :: k in keys[..i + 1] <==> k in keys[..i] || k == keys[i];
      if value.Undefined? {
        missing := missing + [keys[i]];
      } else {
        extracted := extracted[keys[i] := value.text];
      }
    }
    assert keys[..|keys|] == keys;
  }

  method MakeCacheKey(h: Hasher, c: CacheConfig, p: Params) returns (r: Option<Key>)
    ensures r == GenerateCacheKey(h, c, p)
    ensures r.Some? <==> c.entity != "" && forall k :: k in c.params ==> k in p && p[k].Defined?
  {
    if c.entity == "" { return None; }
    var extracted, missing := CollectParams(c.params, p);
    if |missing| > 0 { return None; }
    return Some(CacheKey(h(CacheMaterial(c.entity, extracted))));
  }

  method MakeConfigMetaKey(h: Hasher, c: CacheConfig, p: Params) returns (r: Option<Key>)
    ensures r == GenerateConfigMetaKey(h, c, p)
    ensures r.Some? <==> c.entity != "" && forall k :: k in c.metaParams ==> k in p && p[k].Defined?
  {
    var extracted, missing := CollectParams(c.metaParams, p);
    if |missing| > 0 { return None; }
    return GenerateMetaKey(h, c.entity, AsParams(extracted));
  }

  predicate Agree(p: Params, q: Params, keys: seq<string>) {
    forall k :: k in keys ==> Lookup(p, k) == Lookup(q, k)
  }

  ghost predicate Injective(h: Hasher) { forall m, m' :: h(m) == h(m') ==> m == m' }

  // Without a parameter named "entity", the fields of a meta key tell the entity and the parameters.
  lemma FieldsTell(entity: string, p: Params)
    requires Lookup(p, "entity").Undefined? && "entity" !in p
    ensures var f := MetaFields(entity, p);
      && "entity" in f && f["entity"] == entity
      && forall k :: k != "entity" ==> (k in f <==> Lookup(p, k).Defined?) && (k in f ==> Defined(f[k]) == Lookup(p, k))
  {
  }

  // A cache key is generated exactly for a named entity and a defined value for every parameter.
  lemma CacheKeyThrowsExactly(h: Hasher, c: CacheConfig, p: Params)
    ensures GenerateCacheKey(h, c, p).Some? <==>
      c.entity != "" && forall k :: k in c.params ==> k in p && p[k].Defined?
  {
  }

  lemma ConfigMetaKeyThrowsExactly(h: Hasher, c: CacheConfig, p: Params)
    ensures GenerateConfigMetaKey(h, c, p).Some? <==>
      c.entity != "" && forall k :: k in c.metaParams ==> k in p && p[k].Defined?
  {
  }

  // With an injective hash two cache keys are equal exactly when entity, parameters and values are.
  lemma CacheKeysAreEqualExactly(h: Hasher, c: CacheConfig, p: Params, c': CacheConfig, p': Params)
    requires Injective(h) && GenerateCacheKey(h, c, p).Some? && GenerateCacheKey(h, c', p').Some?
    ensures GenerateCacheKey(h, c, p) == GenerateCacheKey(h, c', p') <==>
      && c.entity == c'.entity
      && (forall k :: k in c.params <==> k in c'.params)
      && forall k :: k in c.params && k in c'.params && k in p && k in p' ==> p[k] == p'[k]
  {
    var e, e' := Extract(c.params, p), Extract(c'.params, p');
    var m, m' := CacheMaterial(c.entity, e), CacheMaterial(c'.entity, e');
    assert h(m) == h(m') <==> m == m';
    forall k ensures k in e <==> k in c.params { assert k in c.params ==> Lookup(p, k).Defined?; }
    forall k ensures k in e' <==> k in c'.params { assert k in c'.params ==> Lookup(p', k).Defined?; }
    if e == e' {
      forall k ensures k in c.params <==> k in c'.params { assert k in e <==> k in e'; }
      forall k | k in c.params && k in c'.params ensures k in p && k in p' ==> p[k] == p'[k] { assert e[k] == e'[k]; }
    }
    if (forall k :: k in c.params <==> k in c'.params)
       && forall k :: k in c.params && k in c'.params && k in p && k in p' ==> p[k] == p'[k] {
      forall k | k in e ensures k in e' && e[k] == e'[k] { assert k in c.params; }
      assert e == e';
    }
  }
}
