// The Redis store behind the cache: data keys with an expiry, and meta keys, which are sets of
// data keys with an expiry of their own. A pipeline or script is one atomic step.
module RedisStore {
  import opened KeyGeneration

  const META_KEY_TTL_BUFFER_SECONDS := 60

  datatype Expiry = Never | At(ms: int)

  datatype Entry = Entry(value: string, expiry: Expiry)

  datatype MetaSet = MetaSet(members: set<Key>, expiry: Expiry)

  datatype Store = Store(data: map<Key, Entry>, metas: map<Key, MetaSet>, now: int)

  predicate Alive(e: Expiry, now: int) { e.Never? || now < e.ms }

  predicate Live(s: Store, k: Key) { k in s.data && Alive(s.data[k].expiry, s.now) }

  predicate LiveMeta(s: Store, m: Key) { m in s.metas && Alive(s.metas[m].expiry, s.now) }

  function Members(s: Store, m: Key): set<Key> { if LiveMeta(s, m) then s.metas[m].members else {} }

  // `e` lasts at least as long as `e'`.
  predicate Outlives(e: Expiry, e': Expiry) { e.Never? || (e'.At? && e'.ms <= e.ms) }

  function Ceil(x: real): int { -((-x).Floor) }

  function DataExpiry(now: int, ttl: real): Expiry { if ttl > 0.0 then At(now + Ceil(ttl * 1000.0)) else Never }

  function MetaExpiryMs(now: int, ttl: real): int { now + (Ceil(ttl) + META_KEY_TTL_BUFFER_SECONDS) * 1000 }

  // SADD, then EXPIRE NX and EXPIRE GT, or PERSIST for a value that does not expire.
  function Touched(s: Store, m: Key, key: Key, ttl: real): MetaSet {
    var before := if LiveMeta(s, m) then s.metas[m].expiry else Never;
    var at := MetaExpiryMs(s.now, ttl);
    MetaSet(Members(s, m) + {key},
            if ttl > 0.0 then (if before.Never? || at > before.ms then At(at) else before) else Never)
  }

  function SetWithMeta(s: Store, key: Key, value: string, ttl: real, metaKeys: set<Key>): Store {
    Store(s.data[key := Entry(value, DataExpiry(s.now, ttl))],
          map m | m in s.metas.Keys + metaKeys :: if m in metaKeys then Touched(s, m, key, ttl) else s.metas[m],
          s.now)
  }

  function Put(s: Store, key: Key, value: string, ttl: real): Store {
    s.(data := s.data[key := Entry(value, DataExpiry(s.now, ttl))])
  }

  function Delete(s: Store, keys: set<Key>): Store { s.(data := s.data - keys) }

  // The data keys that some meta key in `metaKeys` lists.
  function Victims(s: Store, metaKeys: set<Key>): set<Key> {
    set m, k | m in metaKeys && k in Members(s, m) :: k
  }

  function DelByMeta(s: Store, metaKeys: set<Key>): Store {
    s.(data := s.data - Victims(s, metaKeys), metas := s.metas - metaKeys)
  }

  function Tick(s: Store, ms: nat): Store { s.(now := s.now + ms) }

  lemma CeilBounds(x: real)
    ensures x <= Ceil(x) as real < x + 1.0
  {
  }

  lemma MetaOutlivesData(now: int, ttl: real)
    requires ttl > 0.0
    ensures DataExpiry(now, ttl).ms < MetaExpiryMs(now, ttl)
  {
    CeilBounds(ttl * 1000.0);
    CeilBounds(ttl);
  }

  lemma CeilCompares(n: int, x: real)
    ensures n < Ceil(x) <==> n as real < x
  {
    CeilBounds(x);
  }

  // What a tracked write leaves: the value lives until its lifetime in seconds has elapsed, or for good when
  // that is not positive, and other entries are untouched.
  lemma WriteIsStored(s: Store, key: Key, value: string, ttl: real, metaKeys: set<Key>)
    ensures var s' := SetWithMeta(s, key, value, ttl, metaKeys);
      && key in s'.data && s'.data[key].value == value && s'.now == s.now
      && (forall ms: nat :: Live(Tick(s', ms), key) <==> ttl <= 0.0 || (ms as real) < ttl * 1000.0)
      && (forall k :: k != key ==> (k in s'.data <==> k in s.data) && (k in s.data ==> s'.data[k] == s.data[k]))
  {
    var s' := SetWithMeta(s, key, value, ttl, metaKeys);
    forall ms: nat ensures Live(Tick(s', ms), key) <==> ttl <= 0.0 || (ms as real) < ttl * 1000.0 {
      CeilCompares(ms, ttl * 1000.0);
    }
  }

  // What it leaves of a meta set: the members of a set that has not expired, and the key.
  lemma MetaSetGainsKey(s: Store, key: Key, value: string, ttl: real, metaKeys: set<Key>, m: Key)
    ensures var metas := SetWithMeta(s, key, value, ttl, metaKeys).metas;
      if m !in metaKeys then (m in metas <==> m in s.metas) && (m in s.metas ==> metas[m] == s.metas[m])
      else if m in s.metas && (s.metas[m].expiry.Never? || s.now < s.metas[m].expiry.ms) then
        m in metas && metas[m].members == s.metas[m].members + {key}
      else m in metas && metas[m].members == {key}
  {
  }

  // It lasts until a minute after the lifetime in whole seconds or until its expiry so far, whichever is
  // later, and for good when the lifetime is not positive.
  lemma MetaSetLasts(s: Store, key: Key, value: string, ttl: real, metaKeys: set<Key>, m: Key)
    requires m in metaKeys
    ensures var expiry := SetWithMeta(s, key, value, ttl, metaKeys).metas[m].expiry;
      && (expiry.Never? <==> ttl <= 0.0)
      && (expiry.At? ==> s.now as real + (ttl + 60.0) * 1000.0 <= expiry.ms as real)
      && (expiry.At? && m in s.metas && s.metas[m].expiry.At? && s.now < s.metas[m].expiry.ms ==>
            s.metas[m].expiry.ms <= expiry.ms)
      && (expiry.At? && s.now as real + (ttl + 61.0) * 1000.0 <= expiry.ms as real ==>
            m in s.metas && s.metas[m].expiry == expiry)
  {
    if ttl > 0.0 { CeilBounds(ttl); }
  }

  // A deletion by meta keys removes exactly those meta sets, and the entries that one of them lists that has
  // not expired.
  lemma DeletedExactly(s: Store, metaKeys: set<Key>)
    ensures var s' := DelByMeta(s, metaKeys);
      && s'.now == s.now
      && (forall m :: m in s'.metas <==> m in s.metas && m !in metaKeys)
      && (forall m :: m in s'.metas ==> s'.metas[m] == s.metas[m])
      && (forall k :: k in s'.data ==> k in s.data && s'.data[k] == s.data[k])
    ensures forall k :: k in s.data ==>
      (k !in DelByMeta(s, metaKeys).data <==>
        exists m :: (m in metaKeys && m in s.metas && k in s.metas[m].members
                     && (s.metas[m].expiry.Never? || s.now < s.metas[m].expiry.ms)))
  {
    forall k | k in Victims(s, metaKeys)
      ensures exists m :: (m in metaKeys && m in s.metas && k in s.metas[m].members
                           && (s.metas[m].expiry.Never? || s.now < s.metas[m].expiry.ms))
    {
      var m :| m in metaKeys && k in Members(s, m);
    }
    forall k, m | m in metaKeys && m in s.metas && k in s.metas[m].members
                  && (s.metas[m].expiry.Never? || s.now < s.metas[m].expiry.ms)
      ensures k in Victims(s, metaKeys)
    {
      assert k in Members(s, m);
    }
  }

  // ---------------------------------------------------------------------
  // Every live entry can be found through the meta keys of its last write
  // ---------------------------------------------------------------------

  // `wrote` is history: the meta keys each data key was last written with.
  ghost predicate TrackedBy(s: Store, k: Key, m: Key) {
    k in s.data && k in Members(s, m) && Outlives(s.metas[m].expiry, s.data[k].expiry)
  }

  ghost predicate Tracked(s: Store, wrote: map<Key, set<Key>>) {
    forall k, m :: Live(s, k) && k in wrote && m in wrote[k] ==> TrackedBy(s, k, m)
  }

  // A write keeps every meta set it touches alive for the entries that rely on it: a set that lost
  // its expiry to a non-expiring entry must not get one back while such an entry is live.
  ghost predicate NoEntryOutlasts(s: Store, wrote: map<Key, set<Key>>, key: Key, ttl: real, metaKeys: set<Key>) {
    ttl > 0.0 ==>
      forall k, m :: k != key && m in metaKeys && Unlimited(s, wrote, k, m) ==>
        Outlives(At(MetaExpiryMs(s.now, ttl)), s.data[k].expiry)
  }

  // A live entry relies on a live meta set without expiry.
  predicate Unlimited(s: Store, wrote: map<Key, set<Key>>, k: Key, m: Key) {
    Live(s, k) && k in wrote && m in wrote[k] && LiveMeta(s, m) && s.metas[m].expiry.Never?
  }

  // Keeping track survives a write exactly when no entry outlasts the expiry the write sets.
  lemma WriteKeepsTrackExactly(s: Store, wrote: map<Key, set<Key>>, key: Key, value: string, ttl: real,
                               metaKeys: set<Key>)
    requires Tracked(s, wrote)
    ensures Tracked(SetWithMeta(s, key, value, ttl, metaKeys), wrote[key := metaKeys])
      <==> NoEntryOutlasts(s, wrote, key, ttl, metaKeys)
  {
    var s', wrote' := SetWithMeta(s, key, value, ttl, metaKeys), wrote[key := metaKeys];
    if ttl > 0.0 { MetaOutlivesData(s.now, ttl); CeilBounds(ttl); }
    if NoEntryOutlasts(s, wrote, key, ttl, metaKeys) {
      forall k, m | Live(s', k) && k in wrote' && m in wrote'[k] ensures TrackedBy(s', k, m) {
        if k != key {
          assert TrackedBy(s, k, m);
        }
      }
    } else {
      var k, m :| k != key && m in metaKeys && Unlimited(s, wrote, k, m)
        && !Outlives(At(MetaExpiryMs(s.now, ttl)), s.data[k].expiry);
      assert TrackedBy(s, k, m);
      assert Live(s', k) && m in wrote'[k] && !TrackedBy(s', k, m);
    }
  }

  // The failing family is inhabited: a non-expiring entry, then an expiring one under the same meta key.
  lemma MixedWritesLoseTrack(h: Hasher)
    ensures var a, b, m := CacheKey("a"), CacheKey("b"), MetaKey("m");
      var s1 := SetWithMeta(Store(map[], map[], 0), a, "", 0.0, {m});
      var s2 := SetWithMeta(s1, b, "", 1.0, {m});
      && Tracked(s1, map[a := {m}]) && !Tracked(s2, map[a := {m}, b := {m}])
      && var s3 := Tick(s2, 61000);
         Live(s3, a) && a in DelByMeta(s3, {m}).data
  {
    var a, b, m := CacheKey("a"), CacheKey("b"), MetaKey("m");
    var s1 := SetWithMeta(Store(map[], map[], 0), a, "", 0.0, {m});
    var s2 := SetWithMeta(s1, b, "", 1.0, {m});
    assert Live(s2, a) && !TrackedBy(s2, a, m);
    assert !LiveMeta(Tick(s2, 61000), m);
  }

  datatype Operation =
    | WriteWithMeta(key: Key, value: string, ttl: real, metaKeys: set<Key>)
    | WritePlain(key: Key, value: string, ttl: real)
    | DeleteKeys(keys: set<Key>)
    | DeleteByMeta(metaKeys: set<Key>)
    | Wait(ms: nat)

  function Apply(s: Store, op: Operation): Store {
    match op
    case WriteWithMeta(key, value, ttl, metaKeys) => SetWithMeta(s, key, value, ttl, metaKeys)
    case WritePlain(key, value, ttl) => Put(s, key, value, ttl)
    case DeleteKeys(keys) => Delete(s, keys)
    case DeleteByMeta(metaKeys) => DelByMeta(s, metaKeys)
    case Wait(ms) => Tick(s, ms)
  }

  // Which meta keys each data key was last written with.
  function Wrote(wrote: map<Key, set<Key>>, op: Operation): map<Key, set<Key>> {
    match op
    case WriteWithMeta(key, _, _, metaKeys) => wrote[key := metaKeys]
    case WritePlain(key, _, _) => wrote[key := {}]
    case _ => wrote
  }

  ghost predicate Harmless(s: Store, wrote: map<Key, set<Key>>, op: Operation) {
    op.WriteWithMeta? ==> NoEntryOutlasts(s, wrote, op.key, op.ttl, op.metaKeys)
  }

  // An operation keeps track of all live entries exactly when it is harmless.
  lemma OperationKeepsTrack(s: Store, wrote: map<Key, set<Key>>, op: Operation)
    requires Tracked(s, wrote)
    ensures Tracked(Apply(s, op), Wrote(wrote, op)) <==> Harmless(s, wrote, op)
  {
    if op.WriteWithMeta? {
      WriteKeepsTrackExactly(s, wrote, op.key, op.value, op.ttl, op.metaKeys);
    } else {
      var s', wrote' := Apply(s, op), Wrote(wrote, op);
      forall k, m | Live(s', k) && k in wrote' && m in wrote'[k] ensures TrackedBy(s', k, m) {
        assert TrackedBy(s, k, m);
        if op.DeleteByMeta? { assert k !in Victims(s, op.metaKeys); }
      }
    }
  }

  function RunStore(s: Store, ops: seq<Operation>): Store
    decreases |ops|
  {
    if ops == [] then s else RunStore(Apply(s, ops[0]), ops[1..])
  }

  function RunWrote(wrote: map<Key, set<Key>>, ops: seq<Operation>): map<Key, set<Key>>
    decreases |ops|
  {
    if ops == [] then wrote else RunWrote(Wrote(wrote, ops[0]), ops[1..])
  }

  ghost predicate AllHarmless(s: Store, wrote: map<Key, set<Key>>, ops: seq<Operation>)
    decreases |ops|
  {
    ops == [] || (Harmless(s, wrote, ops[0]) && AllHarmless(Apply(s, ops[0]), Wrote(wrote, ops[0]), ops[1..]))
  }

  ghost predicate TrackedThroughout(s: Store, wrote: map<Key, set<Key>>, ops: seq<Operation>) {
    forall n :: 0 <= n <= |ops| ==> Tracked(RunStore(s, ops[..n]), RunWrote(wrote, ops[..n]))
  }

  // A run keeps each live entry a member of every meta set it was last written with, and each such set
  // outliving it, throughout, exactly when all its writes are harmless.
  lemma {:induction false} RunsKeepTrack(s: Store, wrote: map<Key, set<Key>>, ops: seq<Operation>)
    requires Tracked(s, wrote)
    ensures TrackedThroughout(s, wrote, ops) <==> AllHarmless(s, wrote, ops)
    decreases |ops|
  {
    if ops != [] {
      var s', wrote', rest := Apply(s, ops[0]), Wrote(wrote, ops[0]), ops[1..];
      OperationKeepsTrack(s, wrote, ops[0]);
      FirstOperation(s, wrote, ops);
      if Harmless(s, wrote, ops[0]) { RunsKeepTrack(s', wrote', rest); }
    }
  }

  lemma FirstOperation(s: Store, wrote: map<Key, set<Key>>, ops: seq<Operation>)
    requires ops != [] && Tracked(s, wrote)
    ensures TrackedThroughout(s, wrote, ops) <==> TrackedThroughout(Apply(s, ops[0]), Wrote(wrote, ops[0]), ops[1..])
    ensures TrackedThroughout(s, wrote, ops) ==> Tracked(Apply(s, ops[0]), Wrote(wrote, ops[0]))
  {
    var s', wrote', rest := Apply(s, ops[0]), Wrote(wrote, ops[0]), ops[1..];
    forall n | 0 < n <= |ops|
      ensures RunStore(s, ops[..n]) == RunStore(s', rest[..n - 1])
      ensures RunWrote(wrote, ops[..n]) == RunWrote(wrote', rest[..n - 1])
    {
      assert ops[..n][1..] == rest[..n - 1];
    }
    assert ops[..0] == [] && rest[..0] == [];
    if TrackedThroughout(s, wrote, ops) {
      forall n | 0 <= n <= |rest| ensures Tracked(RunStore(s', rest[..n]), RunWrote(wrote', rest[..n])) {
        assert Tracked(RunStore(s, ops[..n + 1]), RunWrote(wrote, ops[..n + 1]));
      }
      assert Tracked(RunStore(s', rest[..0]), RunWrote(wrote', rest[..0]));
    }
    if TrackedThroughout(s', wrote', rest) {
      forall n | 0 <= n <= |ops| ensures Tracked(RunStore(s, ops[..n]), RunWrote(wrote, ops[..n])) {
        if n > 0 { assert Tracked(RunStore(s', rest[..n - 1]), RunWrote(wrote', rest[..n - 1])); }
      }
    }
  }

  // Meta sets have an expiry as long as all tracked writes expire.
  ghost predicate AllExpire(s: Store) {
    forall m :: m in s.metas ==> s.metas[m].expiry.At?
  }

  lemma ExpiringWriteIsHarmless(s: Store, wrote: map<Key, set<Key>>, op: Operation)
    requires AllExpire(s) && (op.WriteWithMeta? ==> op.ttl > 0.0)
    ensures Harmless(s, wrote, op) && AllExpire(Apply(s, op))
  {
  }

  // All writes are harmless when all of them expire, and when none of them does.
  lemma {:induction false} UniformWritesAreHarmless(s: Store, wrote: map<Key, set<Key>>, ops: seq<Operation>)
    ensures AllExpire(s) && (forall i :: 0 <= i < |ops| && ops[i].WriteWithMeta? ==> ops[i].ttl > 0.0) ==>
      AllHarmless(s, wrote, ops)
    ensures (forall i :: 0 <= i < |ops| && ops[i].WriteWithMeta? ==> ops[i].ttl <= 0.0) ==> AllHarmless(s, wrote, ops)
    decreases |ops|
  {
    if ops != [] {
      var op, rest := ops[0], ops[1..];
      if AllExpire(s) && (op.WriteWithMeta? ==> op.ttl > 0.0) { ExpiringWriteIsHarmless(s, wrote, op); }
      UniformWritesAreHarmless(Apply(s, op), Wrote(wrote, op), rest);
    }
  }

  class RedisCacheProvider {
    var data: map<Key, Entry>
    var metas: map<Key, MetaSet>
    var now: int

    function Value(): Store
      reads this
    {
      Store(data, metas, now)
    }

    constructor ()
      ensures Value() == Store(map[], map[], 0)
    {
      data, metas, now := map[], map[], 0;
    }

    method Write(key: Key, value: string, ttl: real)
      modifies this`data
      ensures Value() == Put(old(Value()), key, value, ttl)
    {
      data := data[key := Entry(value, DataExpiry(now, ttl))];
    }

    // Enters a data key in one meta set and adjusts the set's expiry.
    method Track(m: Key, key: Key, ttl: real)
      modifies this`metas
      ensures metas == old(metas)[m := Touched(old(Value()), m, key, ttl)]
    {
      var members := if m in metas && Alive(metas[m].expiry, now) then metas[m].members else {};
      var expiry := if m in metas && Alive(metas[m].expiry, now) then metas[m].expiry else Never;
      members := members + {key};
      if ttl > 0.0 {
        var at := MetaExpiryMs(now, ttl);
        if expiry.Never? { expiry := At(at); }
        if at > expiry.ms { expiry := At(at); }
      } else {
        expiry := Never;
      }
      metas := metas[m := MetaSet(members, expiry)];
    }

    method WriteTracked(key: Key, value: string, ttl: real, metaKeys: seq<Key>)
      modifies this`data, this`metas
      ensures Value() == SetWithMeta(old(Value()), key, value, ttl, Elems(metaKeys))
    {
      ghost var s := Value();
      Write(key, value, ttl);
      SetWithNone(s, key, value, ttl);
      for i := 0 to |metaKeys|
        invariant Value() == SetWithMeta(s, key, value, ttl, Elems(metaKeys[..i]))
      {
        TouchOneMore(s, key, value, ttl, Elems(metaKeys[..i]), metaKeys[i]);
        Track(metaKeys[i], key, ttl);
        ElemsSnoc(metaKeys, i);
      }
      assert metaKeys[..|metaKeys|] == metaKeys;
    }

    method Del(key: Key) returns (deleted: nat)
      modifies this`data
      ensures Value() == Delete(old(Value()), {key})
      ensures deleted == if Live(old(Value()), key) then 1 else 0
    {
      deleted := if key in data && Alive(data[key].expiry, now) then 1 else 0;
      data := data - {key};
    }

    method Pass(ms: nat)
      modifies this`now
      ensures Value() == Tick(old(Value()), ms)
    {
      now := now + ms;
    }

    method Gather(metaKeys: seq<Key>) returns (cacheKeys: set<Key>)
      ensures cacheKeys == Victims(Value(), Elems(metaKeys))
    {
      cacheKeys := {};
      for i := 0 to |metaKeys|
        invariant cacheKeys == Victims(Value(), Elems(metaKeys[..i]))
      {
        var m := metaKeys[i];
        ElemsSnoc(metaKeys, i);
        VictimsOfOneMore(Value(), Elems(metaKeys[..i]), m);
        if m in metas && Alive(metas[m].expiry, now) { cacheKeys := cacheKeys + metas[m].members; }
      }
      assert metaKeys[..|metaKeys|] == metaKeys;
    }

    method DelAll(keys: set<Key>) returns (deleted: nat)
      modifies this`data
      ensures Value() == Delete(old(Value()), keys)
      ensures deleted == |LiveAmong(old(Value()), keys)|
    {
      ghost var s := Value();
      deleted := 0;
      var todo := keys;
      while todo != {}
        invariant todo <= keys
        invariant Value() == Delete(s, keys - todo)
        invariant deleted == |LiveAmong(s, keys - todo)|
      {
        var k :| k in todo;
        ghost var done := keys - todo;
        LiveAmongMore(s, done, k);
        todo := todo - {k};
        assert keys - todo == done + {k};
        var one := Del(k);
        deleted := deleted + one;
      }
      assert keys - todo == keys;
    }

    // The script: gather the members of all meta sets, delete them, then delete the meta sets.
    method DelByMetaMany(metaKeys: seq<Key>) returns (deleted: nat)
      modifies this`data, this`metas
      ensures Value() == DelByMeta(old(Value()), Elems(metaKeys))
      ensures deleted == |LiveAmong(old(Value()), Victims(old(Value()), Elems(metaKeys)))|
    {
      var cacheKeys := Gather(metaKeys);
      deleted := DelAll(cacheKeys);
      metas := metas - Elems(metaKeys);
    }
  }

  function LiveAmong(s: Store, keys: set<Key>): set<Key> { set k | k in keys && Live(s, k) }

  // The entries counted by a deletion are the live ones that it removes.
  lemma CountedAreRemoved(s: Store, metaKeys: set<Key>)
    ensures LiveAmong(s, Victims(s, metaKeys)) ==
      set k | k in s.data && k !in DelByMeta(s, metaKeys).data
              && (s.data[k].expiry.Never? || s.now < s.data[k].expiry.ms)
  {
  }

  lemma LiveAmongMore(s: Store, done: set<Key>, k: Key)
    requires k !in done
    ensures |LiveAmong(s, done + {k})| == |LiveAmong(s, done)| + if Live(s, k) then 1 else 0
    ensures Live(Delete(s, done), k) == Live(s, k)
  {
    if Live(s, k) {
      assert LiveAmong(s, done + {k}) == LiveAmong(s, done) + {k};
    } else {
      assert LiveAmong(s, done + {k}) == LiveAmong(s, done);
    }
  }

  function Elems(s: seq<Key>): set<Key> { set m | m in s }

  lemma ElemsSnoc(s: seq<Key>, i: nat)
    requires i < |s|
    ensures Elems(s[..i + 1]) == Elems(s[..i]) + {s[i]}
  {
    assert s[..i + 1] == s[..i] + [s[i]];
  }

  lemma VictimsOfOneMore(s: Store, metaKeys: set<Key>, m: Key)
    ensures Victims(s, metaKeys + {m}) == Victims(s, metaKeys) + Members(s, m)
  {
  }

  lemma SetWithNone(s: Store, key: Key, value: string, ttl: real)
    ensures SetWithMeta(s, key, value, ttl, {}) == Put(s, key, value, ttl)
  {
    assert SetWithMeta(s, key, value, ttl, {}).metas == s.metas;
  }

  // Entering a key in one more set, even one already entered, extends the write to that set.
  lemma TouchOneMore(s: Store, key: Key, value: string, ttl: real, done: set<Key>, m: Key)
    ensures var now := SetWithMeta(s, key, value, ttl, done);
      now.(metas := now.metas[m := Touched(now, m, key, ttl)]) == SetWithMeta(s, key, value, ttl, done + {m})
  {
    if ttl > 0.0 { CeilBounds(ttl); }
    var now := SetWithMeta(s, key, value, ttl, done);
    assert Touched(now, m, key, ttl) == Touched(s, m, key, ttl);
    assert now.metas[m := Touched(now, m, key, ttl)] == SetWithMeta(s, key, value, ttl, done + {m}).metas;
  }
}
