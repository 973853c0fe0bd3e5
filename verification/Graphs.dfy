// Directed graphs, closed walks and topological orders.
module Graphs {

  type Graph<T> = map<T, set<T>>

  predicate Edge<T(==)>(g: Graph<T>, u: T, v: T) { u in g && v in g[u] }

  ghost predicate NoDuplicates<T>(s: seq<T>) {
    forall i, j :: 0 <= i < j < |s| ==> s[i] != s[j]
  }

  ghost predicate Walk<T>(g: Graph<T>, p: seq<T>) {
    forall i :: 0 <= i < |p| - 1 ==> Edge(g, p[i], p[i + 1])
  }

  ghost predicate ClosedWalk<T>(g: Graph<T>, p: seq<T>) {
    |p| >= 2 && Walk(g, p) && p[0] == p[|p| - 1]
  }

  // `order` lists `done` without repetition, and every edge of a listed node leads to an earlier one.
  ghost predicate Finished<T(!new)>(g: Graph<T>, order: seq<T>, done: set<T>) {
    && NoDuplicates(order)
    && (forall u :: u in done <==> u in order)
    && forall i, v :: 0 <= i < |order| && Edge(g, order[i], v) ==> v in order[..i]
  }

  // Dependencies come first.
  ghost predicate Topological<T(!new)>(g: Graph<T>, order: seq<T>) {
    && (forall u :: u in g ==> u in order)
    && NoDuplicates(order)
    && forall i, v :: 0 <= i < |order| && Edge(g, order[i], v) ==> v in order[..i]
  }

  ghost predicate Sortable<T(!new)>(g: Graph<T>) { exists order :: Topological(g, order) }

  ghost predicate Cyclic<T(!new)>(g: Graph<T>) { exists p :: ClosedWalk(g, p) }

  lemma FinishNode<T(!new)>(g: Graph<T>, order: seq<T>, done: set<T>, u: T)
    requires Finished(g, order, done) && u !in done
    requires forall v :: Edge(g, u, v) ==> v in done
    ensures Finished(g, order + [u], done + {u})
  {
    var order' := order + [u];
    forall i, v | 0 <= i < |order'| && Edge(g, order'[i], v) ensures v in order'[..i] {
      if i < |order| { assert order'[..i] == order[..i]; } else { assert order'[..i] == order; }
    }
    forall x ensures x in done + {u} <==> x in order' {
      assert x in order' <==> x in order || x == u;
    }
  }

  // A walk from the k-th node of an order leads to earlier nodes only.
  lemma {:induction false} WalkDescends<T(!new)>(g: Graph<T>, order: seq<T>, p: seq<T>, k: nat)
    requires NoDuplicates(order) && forall i, v :: 0 <= i < |order| && Edge(g, order[i], v) ==> v in order[..i]
    requires k < |order| && |p| >= 2 && p[0] == order[k] && Walk(g, p)
    ensures p[|p| - 1] in order[..k]
    decreases |p|
  {
    assert Edge(g, p[0], p[1]);
    var k' :| 0 <= k' < k && order[k'] == p[1];
    if |p| > 2 {
      assert Walk(g, p[1..]) by {
        forall i | 0 <= i < |p[1..]| - 1 ensures Edge(g, p[1..][i], p[1..][i + 1]) {
          assert Edge(g, p[i + 1], p[i + 2]);
        }
      }
      WalkDescends(g, order, p[1..], k');
      assert order[..k'] <= order[..k];
    }
  }

  lemma SortableIsAcyclic<T(!new)>(g: Graph<T>)
    requires Sortable(g)
    ensures !Cyclic(g)
  {
    var order :| Topological(g, order);
    forall p ensures !ClosedWalk(g, p) {
      if ClosedWalk(g, p) {
        assert Edge(g, p[0], p[1]);
        var k :| 0 <= k < |order| && order[k] == p[0];
        WalkDescends(g, order, p, k);
      }
    }
  }

  // A walk that runs into itself contains a closed walk.
  lemma WalkIntoItself<T>(g: Graph<T>, p: seq<T>, i: nat)
    requires i < |p| - 1 && Walk(g, p) && p[i] == p[|p| - 1]
    ensures ClosedWalk(g, p[i..])
  {
    var q := p[i..];
    forall j | 0 <= j < |q| - 1 ensures Edge(g, q[j], q[j + 1]) {
      assert Edge(g, p[i + j], p[i + j + 1]);
    }
  }

  lemma WalkExtends<T>(g: Graph<T>, p: seq<T>, v: T)
    requires Walk(g, p) && (p != [] ==> Edge(g, p[|p| - 1], v))
    ensures Walk(g, p + [v])
  {
    forall i | 0 <= i < |p + [v]| - 1 ensures Edge(g, (p + [v])[i], (p + [v])[i + 1]) {
      if i < |p| - 1 { assert Edge(g, p[i], p[i + 1]); }
    }
  }

  // ---------------------------------------------------------------------
  // Depth-first search: the stack is the current path, and while no cycle has been found the
  // nodes left behind are in dependency order.
  // ---------------------------------------------------------------------

  datatype Search<T> = Search(visited: set<T>, stack: set<T>, path: seq<T>, cycles: seq<seq<T>>)

  ghost predicate Consistent<T(!new)>(g: Graph<T>, s: Search<T>, order: seq<T>) {
    && s.stack <= s.visited
    && (forall t :: t in s.stack <==> t in s.path)
    && NoDuplicates(s.path) && Walk(g, s.path)
    && (forall c :: c in s.cycles ==> ClosedWalk(g, c))
    && (s.cycles == [] ==> Finished(g, order, s.visited - s.stack))
  }

  lemma EnterNode<T(!new)>(g: Graph<T>, s: Search<T>, order: seq<T>, u: T)
    requires Consistent(g, s, order) && u !in s.visited
    requires s.path != [] ==> Edge(g, s.path[|s.path| - 1], u)
    ensures Consistent(g, Search(s.visited + {u}, s.stack + {u}, s.path + [u], s.cycles), order)
  {
    WalkExtends(g, s.path, u);
    assert s.visited + {u} - (s.stack + {u}) == s.visited - s.stack;
    assert forall t :: t in s.path + [u] <==> t in s.path || t == u;
  }

  lemma LeaveNode<T(!new)>(g: Graph<T>, s: Search<T>, order: seq<T>, u: T)
    requires Consistent(g, s, order) && s.path != [] && u == s.path[|s.path| - 1]
    requires s.cycles == [] ==> forall v :: Edge(g, u, v) ==> v in s.visited - s.stack
    ensures Consistent(g, s.(stack := s.stack - {u}, path := s.path[..|s.path| - 1]), order + [u])
  {
    var path := s.path[..|s.path| - 1];
    assert s.path == path + [u];
    assert Walk(g, path) by {
      forall i | 0 <= i < |path| - 1 ensures Edge(g, path[i], path[i + 1]) { assert Edge(g, s.path[i], s.path[i + 1]); }
    }
    if s.cycles == [] {
      FinishNode(g, order, s.visited - s.stack, u);
      assert s.visited - (s.stack - {u}) == s.visited - s.stack + {u};
    }
  }

  lemma CloseCycle<T(!new)>(g: Graph<T>, s: Search<T>, order: seq<T>, u: T, start: nat)
    requires Consistent(g, s, order) && start < |s.path| && s.path[start] == u
    requires Edge(g, s.path[|s.path| - 1], u)
    ensures ClosedWalk(g, s.path[start..] + [u])
    ensures Consistent(g, s.(cycles := s.cycles + [s.path[start..] + [u]]), order)
  {
    WalkExtends(g, s.path, u);
    WalkIntoItself(g, s.path + [u], start);
    assert (s.path + [u])[start..] == s.path[start..] + [u];
  }

  // A finished search decides whether the graph can be sorted, and whether it has a cycle.
  lemma SearchDecides<T(!new)>(g: Graph<T>, s: Search<T>, order: seq<T>)
    requires Consistent(g, s, order) && s.stack == {} && g.Keys <= s.visited
    ensures s.cycles == [] <==> Sortable(g)
    ensures s.cycles == [] <==> !Cyclic(g)
  {
    if s.cycles == [] {
      assert s.visited - s.stack == s.visited;
      assert Topological(g, order);
      SortableIsAcyclic(g);
    } else {
      assert ClosedWalk(g, s.cycles[0]);
      if Sortable(g) { SortableIsAcyclic(g); }
    }
  }
}
