// At-most-once processing of events by id, in an insertion-ordered map with expiry and eviction.
module EventIdempotencies {

  datatype Entry = Entry(id: string, time: int)

  predicate Has(p: seq<Entry>, id: string) { exists i :: 0 <= i < |p| && p[i].id == id }

  ghost predicate Distinct(p: seq<Entry>) { forall i, j :: 0 <= i < j < |p| ==> p[i].id != p[j].id }

  // Entries no older than the lifetime.
  function Unexpired(p: seq<Entry>, now: int, ttlMs: int): seq<Entry> {
    if p == [] then []
    else
      var e := p[|p| - 1];
      Unexpired(p[..|p| - 1], now, ttlMs) + if now - e.time > ttlMs then [] else [e]
  }

  // Eviction skips an empty id.
  function Empties(p: seq<Entry>): seq<Entry> {
    if p == [] then []
    else Empties(p[..|p| - 1]) + if p[|p| - 1].id == "" then [p[|p| - 1]] else []
  }

  function Evicted(p: seq<Entry>, maxSize: nat): seq<Entry> {
    if |p| > maxSize then Empties(p[..|p| - maxSize]) + p[|p| - maxSize..] else p
  }

  // The table after a call for `id`.
  function Processed(p: seq<Entry>, id: string, now: int, maxSize: nat, ttlMs: int): seq<Entry> {
    var live := Unexpired(p, now, ttlMs);
    if Has(live, id) then live else Evicted(live + [Entry(id, now)], maxSize)
  }

  // Whether the call runs the handler.
  predicate Executes(p: seq<Entry>, id: string, now: int, ttlMs: int) { !Has(Unexpired(p, now, ttlMs), id) }

  // ---------------------------------------------------------------------
  // Size
  // ---------------------------------------------------------------------

  lemma DistinctConcat(a: seq<Entry>, b: seq<Entry>)
    ensures Distinct(a + b) <==> Distinct(a) && Distinct(b) && forall x, y :: x in a && y in b ==> x.id != y.id
  {
    if Distinct(a + b) {
      forall i, j | 0 <= i < j < |a| ensures a[i].id != a[j].id { assert (a + b)[i].id != (a + b)[j].id; }
      forall i, j | 0 <= i < j < |b| ensures b[i].id != b[j].id { assert (a + b)[|a| + i].id != (a + b)[|a| + j].id; }
      forall x, y | x in a && y in b ensures x.id != y.id {
        var i :| 0 <= i < |a| && a[i] == x;
        var j :| 0 <= j < |b| && b[j] == y;
        assert (a + b)[i].id != (a + b)[|a| + j].id;
      }
    }
  }

  lemma HasMember(p: seq<Entry>, id: string)
    ensures Has(p, id) <==> exists e :: e in p && e.id == id
  {
    if Has(p, id) {
      var i :| 0 <= i < |p| && p[i].id == id;
      assert p[i] in p;
    }
  }

  lemma {:induction false} UnexpiredMembers(p: seq<Entry>, now: int, ttlMs: int)
    ensures var q := Unexpired(p, now, ttlMs);
      |q| <= |p| && (|q| == |p| ==> q == p) && forall e :: e in q <==> e in p && now - e.time <= ttlMs
  {
    if p != [] {
      UnexpiredMembers(p[..|p| - 1], now, ttlMs);
      assert p == p[..|p| - 1] + [p[|p| - 1]];
    }
  }

  lemma {:induction false} UnexpiredDistinct(p: seq<Entry>, now: int, ttlMs: int)
    requires Distinct(p)
    ensures Distinct(Unexpired(p, now, ttlMs))
  {
    if p != [] {
      var rest, last := p[..|p| - 1], [p[|p| - 1]];
      assert p == rest + last;
      DistinctConcat(rest, last);
      UnexpiredDistinct(rest, now, ttlMs);
      UnexpiredMembers(rest, now, ttlMs);
      DistinctConcat(Unexpired(rest, now, ttlMs), last);
    }
  }

  lemma {:induction false} EmptiesMembers(p: seq<Entry>)
    ensures forall e :: e in Empties(p) <==> e in p && e.id == ""
  {
    if p != [] {
      EmptiesMembers(p[..|p| - 1]);
      assert p == p[..|p| - 1] + [p[|p| - 1]];
    }
  }

  // There is at most one entry with an empty id.
  lemma {:induction false} EmptiesSound(p: seq<Entry>)
    requires Distinct(p)
    ensures Distinct(Empties(p)) && |Empties(p)| == (if Has(p, "") then 1 else 0)
  {
    if p != [] {
      var rest, last := p[..|p| - 1], [p[|p| - 1]];
      assert p == rest + last;
      DistinctConcat(rest, last);
      EmptiesSound(rest);
      HasMember(rest, "");
      HasMember(p, "");
      assert last[0] in last;
      if last[0].id == "" { assert last[0] in p; }
    }
  }

  lemma EvictedDistinct(p: seq<Entry>, maxSize: nat)
    requires Distinct(p)
    ensures Distinct(Evicted(p, maxSize)) && (forall e :: e in Evicted(p, maxSize) ==> e in p)
  {
    if |p| > maxSize {
      var n := |p| - maxSize;
      assert p == p[..n] + p[n..];
      DistinctConcat(p[..n], p[n..]);
      EmptiesSound(p[..n]);
      EmptiesMembers(p[..n]);
      DistinctConcat(Empties(p[..n]), p[n..]);
    }
  }

  lemma EvictedSize(p: seq<Entry>, maxSize: nat)
    requires Distinct(p)
    ensures |Evicted(p, maxSize)| <= maxSize + if Has(Evicted(p, maxSize), "") then 1 else 0
  {
    if |p| > maxSize {
      var n := |p| - maxSize;
      assert p == p[..n] + p[n..];
      DistinctConcat(p[..n], p[n..]);
      EmptiesSound(p[..n]);
      EmptiesMembers(p[..n]);
      if |Empties(p[..n])| > 0 {
        assert Empties(p[..n])[0] in Empties(p[..n]);
        assert Evicted(p, maxSize)[0].id == "";
      }
    }
  }

  // The table exceeds its size by at most one entry, and only while it holds the empty id.
  ghost predicate Bounded(p: seq<Entry>, maxSize: nat) {
    Distinct(p) && |p| <= maxSize + if Has(p, "") then 1 else 0
  }

  lemma ExpiryKeepsBound(p: seq<Entry>, now: int, maxSize: nat, ttlMs: int)
    requires Bounded(p, maxSize)
    ensures Bounded(Unexpired(p, now, ttlMs), maxSize)
    ensures Has(Unexpired(p, now, ttlMs), "") ==> Has(p, "")
  {
    UnexpiredDistinct(p, now, ttlMs);
    UnexpiredMembers(p, now, ttlMs);
    HasMember(p, "");
    HasMember(Unexpired(p, now, ttlMs), "");
  }

  lemma ProcessingKeepsBound(p: seq<Entry>, id: string, now: int, maxSize: nat, ttlMs: int)
    requires Bounded(p, maxSize)
    ensures Bounded(Processed(p, id, now, maxSize, ttlMs), maxSize)
    ensures id != "" && !Has(p, "") ==> !Has(Processed(p, id, now, maxSize, ttlMs), "")
  {
    ExpiryKeepsBound(p, now, maxSize, ttlMs);
    var live := Unexpired(p, now, ttlMs);
    if !Has(live, id) {
      var all := live + [Entry(id, now)];
      HasMember(live, id);
      DistinctConcat(live, [Entry(id, now)]);
      EvictedDistinct(all, maxSize);
      EvictedSize(all, maxSize);
      HasMember(live, "");
      HasMember(Evicted(all, maxSize), "");
    }
  }

  // A call that runs its handler leaves the table within its size exactly when the entries to evict,
  // if any, do not include the empty id.
  lemma TableFitsExactly(p: seq<Entry>, id: string, now: int, maxSize: nat, ttlMs: int)
    requires Distinct(p) && Executes(p, id, now, ttlMs)
    ensures var all := Unexpired(p, now, ttlMs) + [Entry(id, now)];
      |Processed(p, id, now, maxSize, ttlMs)| <= maxSize <==>
        |all| <= maxSize || !Has(all[..|all| - maxSize], "")
  {
    var live := Unexpired(p, now, ttlMs);
    var all := live + [Entry(id, now)];
    UnexpiredDistinct(p, now, ttlMs);
    HasMember(live, id);
    DistinctConcat(live, [Entry(id, now)]);
    if |all| > maxSize {
      var n := |all| - maxSize;
      assert all == all[..n] + all[n..];
      DistinctConcat(all[..n], all[n..]);
      EmptiesSound(all[..n]);
    }
  }

  lemma FirstCallIsRecorded(id: string, now: int, maxSize: nat, ttlMs: int)
    requires maxSize >= 1
    ensures Processed([], id, now, maxSize, ttlMs) == [Entry(id, now)]
  {
    assert [] + [Entry(id, now)] == [Entry(id, now)];
  }

  lemma FreshEntryStays(e: Entry, now: int, ttlMs: int)
    requires now - e.time <= ttlMs
    ensures Unexpired([e], now, ttlMs) == [e]
  {
    assert [e][..0] == [];
  }

  lemma EmptyIdStays(empty: Entry, e: Entry)
    requires empty.id == ""
    ensures Evicted([empty, e], 1) == [empty, e]
  {
    assert [empty][..0] == [] && Empties([empty]) == [empty];
    assert [empty, e][..1] == [empty] && [empty, e][1..] == [e];
  }

  lemma SecondCallIsRecorded(empty: Entry, e: Entry, ttlMs: int)
    requires empty.id == "" != e.id && 0 <= e.time - empty.time <= ttlMs
    ensures Processed([empty], e.id, e.time, 1, ttlMs) == [empty, e] && Bounded([empty, e], 1)
  {
    FreshEntryStays(empty, e.time, ttlMs);
    EmptyIdStays(empty, e);
    assert [empty] + [e] == [empty, e] && [empty][0].id != e.id;
    assert [empty, e][0].id == "";
  }

  // An empty id is never evicted, so two entries can remain in a table of size one.
  lemma EmptyIdIsNotEvicted()
    ensures var p := Processed(Processed([], "", 0, 1, 10), "a", 0, 1, 10); |p| == 2 && Bounded(p, 1)
  {
    FirstCallIsRecorded("", 0, 1, 10);
    SecondCallIsRecorded(Entry("", 0), Entry("a", 0), 10);
    assert "a"[0] == 'a';
  }

  // ---------------------------------------------------------------------
  // What a call decides, on the entries themselves
  // ---------------------------------------------------------------------

  // The handler runs exactly when every entry for the id is older than its lifetime.
  lemma ExecutesExactly(p: seq<Entry>, id: string, now: int, ttlMs: int)
    ensures Executes(p, id, now, ttlMs) <==> forall e :: e in p && e.id == id ==> now - e.time > ttlMs
  {
    UnexpiredMembers(p, now, ttlMs);
    HasMember(Unexpired(p, now, ttlMs), id);
  }

  // Eviction keeps the newest entries up to the size of the table, in order, and of the older ones exactly
  // those with an empty id.
  lemma EvictsOldestExactly(p: seq<Entry>, maxSize: nat)
    ensures |p| <= maxSize ==> Evicted(p, maxSize) == p
    ensures |p| > maxSize ==>
      var q := Evicted(p, maxSize);
      && |q| >= maxSize && q[|q| - maxSize..] == p[|p| - maxSize..]
      && forall e :: e in q[..|q| - maxSize] <==> e in p[..|p| - maxSize] && e.id == ""
  {
    if |p| > maxSize {
      var kept, q := Empties(p[..|p| - maxSize]), Evicted(p, maxSize);
      EmptiesMembers(p[..|p| - maxSize]);
      assert q[..|q| - maxSize] == kept;
    }
  }

  // Of the table before, a call keeps the unexpired entries. If it runs its handler, it adds one for its id
  // as the newest, and then evicts.
  lemma ProcessedExactly(p: seq<Entry>, id: string, now: int, maxSize: nat, ttlMs: int)
    ensures exists live: seq<Entry> ::
      && Survive(p, live, now, ttlMs)
      && Processed(p, id, now, maxSize, ttlMs) ==
           if exists e :: e in live && e.id == id then live else Evicted(live + [Entry(id, now)], maxSize)
  {
    UnexpiredMembers(p, now, ttlMs);
    HasMember(Unexpired(p, now, ttlMs), id);
    assert Survive(p, Unexpired(p, now, ttlMs), now, ttlMs);
  }

  ghost predicate Survive(p: seq<Entry>, live: seq<Entry>, now: int, ttlMs: int) {
    forall e :: e in live <==> e in p && now - e.time <= ttlMs
  }

  // ---------------------------------------------------------------------
  // At most once
  // ---------------------------------------------------------------------

  // The table holds `e`, with at most `k` entries inserted after it.
  ghost predicate Remembers(p: seq<Entry>, e: Entry, k: nat) {
    exists a, b :: p == a + [e] + b && |b| <= k
  }

  lemma {:induction false} UnexpiredConcat(a: seq<Entry>, b: seq<Entry>, now: int, ttlMs: int)
    ensures Unexpired(a + b, now, ttlMs) == Unexpired(a, now, ttlMs) + Unexpired(b, now, ttlMs)
    ensures |Unexpired(b, now, ttlMs)| <= |b|
  {
    if b == [] {
      assert a + b == a;
    } else {
      assert (a + b)[..|a + b| - 1] == a + b[..|b| - 1];
      UnexpiredConcat(a, b[..|b| - 1], now, ttlMs);
    }
  }

  lemma RememberedWhenUnexpired(p: seq<Entry>, e: Entry, k: nat, now: int, ttlMs: int)
    requires Remembers(p, e, k) && now - e.time <= ttlMs
    ensures Remembers(Unexpired(p, now, ttlMs), e, k)
  {
    var a, b :| p == a + [e] + b && |b| <= k;
    UnexpiredConcat(a + [e], b, now, ttlMs);
    UnexpiredConcat(a, [e], now, ttlMs);
    assert Unexpired([e], now, ttlMs) == [e];
    assert Unexpired(p, now, ttlMs) == Unexpired(a, now, ttlMs) + [e] + Unexpired(b, now, ttlMs);
  }

  lemma RememberedWhenEvicted(p: seq<Entry>, e: Entry, k: nat, maxSize: nat)
    requires Remembers(p, e, k) && k < maxSize
    ensures Remembers(Evicted(p, maxSize), e, k)
  {
    var a, b :| p == a + [e] + b && |b| <= k;
    if |p| > maxSize {
      var n := |p| - maxSize;
      assert p[n..] == a[n..] + [e] + b;
      assert Evicted(p, maxSize) == (Empties(p[..n]) + a[n..]) + [e] + b;
    }
  }

  // A remembered id is not processed again; another id pushes it back by at most one.
  lemma RememberedAfterCall(p: seq<Entry>, e: Entry, k: nat, id: string, now: int, maxSize: nat, ttlMs: int)
    requires Remembers(p, e, k) && now - e.time <= ttlMs
    ensures Executes(p, id, now, ttlMs) ==> id != e.id
    ensures Executes(p, id, now, ttlMs) && k + 1 < maxSize ==>
      Remembers(Processed(p, id, now, maxSize, ttlMs), e, k + 1)
    ensures !Executes(p, id, now, ttlMs) ==> Remembers(Processed(p, id, now, maxSize, ttlMs), e, k)
  {
    RememberedWhenUnexpired(p, e, k, now, ttlMs);
    var live := Unexpired(p, now, ttlMs);
    var a, b :| live == a + [e] + b && |b| <= k;
    assert live[|a|] == e;
    if Executes(p, id, now, ttlMs) && k + 1 < maxSize {
      var all := live + [Entry(id, now)];
      assert all == a + [e] + (b + [Entry(id, now)]);
      RememberedWhenEvicted(all, e, k + 1, maxSize);
    }
  }

  datatype Call = Call(id: string, time: int)

  // The table after a run of calls, and how many of them ran their handler.
  function TableAfter(p: seq<Entry>, calls: seq<Call>, maxSize: nat, ttlMs: int): seq<Entry> {
    if calls == [] then p
    else
      var last := calls[|calls| - 1];
      Processed(TableAfter(p, calls[..|calls| - 1], maxSize, ttlMs), last.id, last.time, maxSize, ttlMs)
  }

  predicate Ran(p: seq<Entry>, calls: seq<Call>, j: nat, maxSize: nat, ttlMs: int)
    requires j < |calls|
  {
    Executes(TableAfter(p, calls[..j], maxSize, ttlMs), calls[j].id, calls[j].time, ttlMs)
  }

  function RunCount(p: seq<Entry>, calls: seq<Call>, from: nat, maxSize: nat, ttlMs: int): nat
    requires from <= |calls|
    decreases |calls| - from
  {
    if from == |calls| then 0
    else (if Ran(p, calls, from, maxSize, ttlMs) then 1 else 0) + RunCount(p, calls, from + 1, maxSize, ttlMs)
  }

  lemma {:induction false} CountSplits(p: seq<Entry>, calls: seq<Call>, from: nat, maxSize: nat, ttlMs: int)
    requires from < |calls|
    ensures RunCount(p, calls, from, maxSize, ttlMs) ==
      RunCount(p, calls[..|calls| - 1], from, maxSize, ttlMs)
      + if Ran(p, calls, |calls| - 1, maxSize, ttlMs) then 1 else 0
    decreases |calls| - from
  {
    if from < |calls| - 1 {
      assert calls[..|calls| - 1][..from] == calls[..from];
      CountSplits(p, calls, from + 1, maxSize, ttlMs);
    } else {
      assert calls[..from] == calls[..|calls| - 1];
    }
  }

  // After call `i` ran its handler, its id is remembered as long as its lifetime lasts and fewer than
  // `maxSize` handlers have run since.
  lemma {:induction false} Remembered(p: seq<Entry>, calls: seq<Call>, i: nat, maxSize: nat, ttlMs: int)
    requires i < |calls| && Ran(p, calls, i, maxSize, ttlMs)
    requires forall j :: i <= j < |calls| ==> calls[j].time - calls[i].time <= ttlMs
    requires RunCount(p, calls, i + 1, maxSize, ttlMs) < maxSize
    ensures Remembers(TableAfter(p, calls, maxSize, ttlMs), Entry(calls[i].id, calls[i].time),
                      RunCount(p, calls, i + 1, maxSize, ttlMs))
    decreases |calls|
  {
    var before := TableAfter(p, calls[..|calls| - 1], maxSize, ttlMs);
    var last := calls[|calls| - 1];
    if i == |calls| - 1 {
      var live, e := Unexpired(before, last.time, ttlMs), Entry(last.id, last.time);
      assert calls[..i] == calls[..|calls| - 1];
      assert live + [e] == live + [e] + [];
      assert Remembers(live + [e], e, 0);
      RememberedWhenEvicted(live + [e], e, 0, maxSize);
    } else {
      var rest := calls[..|calls| - 1];
      CountSplits(p, calls, i + 1, maxSize, ttlMs);
      assert rest[..i] == calls[..i];
      Remembered(p, rest, i, maxSize, ttlMs);
      RememberedAfterCall(before, Entry(calls[i].id, calls[i].time), RunCount(p, rest, i + 1, maxSize, ttlMs),
                          last.id, last.time, maxSize, ttlMs);
    }
  }

  // In any run, a handler that ran for an id does not run for it again while at most `ttlMs` has
  // elapsed and fewer than `maxSize` other ids were inserted since.
  lemma HandlerRunsAtMostOnce(p: seq<Entry>, calls: seq<Call>, i: nat, j: nat, maxSize: nat, ttlMs: int)
    requires i < j < |calls| && calls[i].id == calls[j].id && Ran(p, calls, i, maxSize, ttlMs)
    requires forall a, b :: i <= a <= b <= j ==> calls[a].time <= calls[b].time
    requires calls[j].time - calls[i].time <= ttlMs
    requires RunCount(p, calls[..j], i + 1, maxSize, ttlMs) < maxSize
    ensures !Ran(p, calls, j, maxSize, ttlMs)
  {
    var rest := calls[..j];
    assert rest[..i] == calls[..i];
    forall x | i <= x < |rest| ensures rest[x].time - rest[i].time <= ttlMs { assert calls[x].time <= calls[j].time; }
    Remembered(p, rest, i, maxSize, ttlMs);
    RememberedAfterCall(TableAfter(p, rest, maxSize, ttlMs), Entry(calls[i].id, calls[i].time),
                        RunCount(p, rest, i + 1, maxSize, ttlMs), calls[j].id, calls[j].time, maxSize, ttlMs);
  }

  class EventIdempotency {
    const maxSize: nat
    const ttlMs: int
    var processed: seq<Entry>

    constructor (maxSize: nat, ttlMs: int)
      ensures processed == [] && this.maxSize == maxSize && this.ttlMs == ttlMs && Bounded(processed, maxSize)
    {
      this.maxSize, this.ttlMs, processed := maxSize, ttlMs, [];
    }

    method CleanExpired(now: int)
      modifies this
      ensures processed == Unexpired(old(processed), now, ttlMs)
    {
      var all := processed;
      processed := [];
      for i := 0 to |all|
        invariant processed == Unexpired(all[..i], now, ttlMs)
      {
        assert all[..i + 1][..i] == all[..i];
        if now - all[i].time <= ttlMs { processed := processed + [all[i]]; }
      }
      assert all[..|all|] == all;
    }

    method EvictOldest()
      requires |processed| > maxSize
      modifies this
      ensures processed == Evicted(old(processed), maxSize)
    {
      var all := processed;
      var toDelete := |all| - maxSize;
      var kept: seq<Entry> := [];
      for i := 0 to toDelete
        invariant kept == Empties(all[..i])
      {
        assert all[..i + 1][..i] == all[..i];
        if all[i].id == "" { kept := kept + [all[i]]; }
      }
      processed := kept + all[toDelete..];
    }

    // Returns whether the handler runs; it runs after the id has been recorded.
    method ProcessOnce(id: string, now: int) returns (executed: bool)
      requires Bounded(processed, maxSize)
      modifies this
      ensures executed == Executes(old(processed), id, now, ttlMs)
      ensures executed <==> forall e :: e in old(processed) && e.id == id ==> now - e.time > ttlMs
      ensures processed == Processed(old(processed), id, now, maxSize, ttlMs)
      ensures Bounded(processed, maxSize)
    {
      ProcessingKeepsBound(processed, id, now, maxSize, ttlMs);
      ExecutesExactly(processed, id, now, ttlMs);
      CleanExpired(now);
      if Has(processed, id) { return false; }
      processed := processed + [Entry(id, now)];
      if |processed| > maxSize { EvictOldest(); }
      return true;
    }
  }
}
