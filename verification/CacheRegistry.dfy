// The registry of cache configurations: forward and reverse dependency graphs, and the startup
// check that the forward graph has no cycle.
module CacheRegistration {
  import opened Graphs

  datatype Outcome = NoCycle | Thrown(cyclePath: seq<string>)

  // A walk along dependencies whose last entity occurs earlier in it.
  ghost predicate LeadsIntoItself(g: Graph<string>, p: seq<string>) {
    |p| >= 2 && Walk(g, p) && p[|p| - 1] in p[..|p| - 1]
  }

  class CacheRegistry {
    // Entity and dependencies of each registered configuration, in registration order.
    var configs: map<string, seq<seq<string>>>
    var dependencyGraph: Graph<string>
    var reverseDependencyGraph: Graph<string>

    ghost predicate Inv()
      reads this
    {
      Mirrored(configs, dependencyGraph, reverseDependencyGraph)
    }

    constructor ()
      ensures Inv() && configs == map[]
    {
      configs, dependencyGraph, reverseDependencyGraph := map[], map[], map[];
    }

    method Register(entity: string, dependencies: seq<string>)
      requires Inv()
      modifies this
      ensures Inv()
      ensures configs == WithConfig(old(configs), entity, dependencies)
    {
      if entity !in configs { configs := configs[entity := []]; }
      configs := configs[entity := configs[entity] + [dependencies]];
      assert configs == WithConfig(old(configs), entity, dependencies);
      if entity !in dependencyGraph { dependencyGraph := dependencyGraph[entity := {}]; }
      dependencyGraph := AddEdges(dependencyGraph, entity, dependencies);
      reverseDependencyGraph := AddReverseEdges(reverseDependencyGraph, entity, dependencies);
      RegisterKeepsMirror(old(configs), old(dependencyGraph), old(reverseDependencyGraph),
                          dependencyGraph, reverseDependencyGraph, entity, dependencies);
    }

    method GetDependents(entity: string) returns (dependents: set<string>)
      requires Inv()
      ensures forall u :: u in dependents <==> Declared(configs, u, entity)
    {
      if entity in reverseDependencyGraph {
        assert forall u :: u in reverseDependencyGraph[entity] <==> Edge(reverseDependencyGraph, entity, u);
        return reverseDependencyGraph[entity];
      }
      assert forall u :: !Edge(reverseDependencyGraph, entity, u);
      return {};
    }

    // Throws exactly when the declared dependencies have a cycle, and then reports a walk into one.
    method ValidateNoCycles() returns (r: Outcome)
      ensures r.NoCycle? <==> !Cyclic(dependencyGraph)
      ensures r.NoCycle? <==> Sortable(dependencyGraph)
      ensures r.Thrown? ==> LeadsIntoItself(dependencyGraph, r.cyclePath)
    {
      var search := new CycleSearch(dependencyGraph);
      var todo := dependencyGraph.Keys;
      while todo != {}
        invariant fresh(search) && search.graph == dependencyGraph
        invariant search.Inv([]) && search.recursionStack == {}
        invariant forall u :: u in dependencyGraph && u !in todo ==> u in search.visited
      {
        var entity :| entity in todo;
        todo := todo - {entity};
        if entity !in search.visited {
          r := search.HasCycle(entity, [entity], []);
          if r.Thrown? {
            IntoItselfIsCyclic(dependencyGraph, r.cyclePath);
            return;
          }
        }
      }
      SearchDecides(dependencyGraph, search.State([]), search.order);
      return NoCycle;
    }
  }

  lemma AddEdge(g: Graph<string>, u: string, v: string)
    ensures var g' := g[u := (if u in g then g[u] else {}) + {v}];
      forall a, b :: Edge(g', a, b) <==> Edge(g, a, b) || (a == u && b == v)
  {
    var g' := g[u := (if u in g then g[u] else {}) + {v}];
    forall a, b ensures Edge(g', a, b) <==> Edge(g, a, b) || (a == u && b == v) {
      if a != u { assert a in g' <==> a in g; }
    }
  }

  method AddEdges(g: Graph<string>, u: string, vs: seq<string>) returns (g': Graph<string>)
    requires u in g
    ensures g'.Keys == g.Keys
    ensures forall a, b :: Edge(g', a, b) <==> Edge(g, a, b) || (a == u && b in vs)
  {
    g' := g;
    for i := 0 to |vs|
      invariant g'.Keys == g.Keys
      invariant forall a, b :: Edge(g', a, b) <==> Edge(g, a, b) || (a == u && b in vs[..i])
    {
      AddEdge(g', u, vs[i]);
      g' := g'[u := g'[u] + {vs[i]}];
      assert vs[..i + 1] == vs[..i] + [vs[i]];
    }
    assert vs[..|vs|] == vs;
  }

  method AddReverseEdges(g: Graph<string>, u: string, vs: seq<string>) returns (g': Graph<string>)
    ensures forall a, b :: Edge(g', b, a) <==> Edge(g, b, a) || (a == u && b in vs)
  {
    g' := g;
    for i := 0 to |vs|
      invariant forall a, b :: Edge(g', b, a) <==> Edge(g, b, a) || (a == u && b in vs[..i])
    {
      AddEdge(g', vs[i], u);
      if vs[i] !in g' { g' := g'[vs[i] := {}]; }
      g' := g'[vs[i] := g'[vs[i]] + {u}];
      assert vs[..i + 1] == vs[..i] + [vs[i]];
    }
    assert vs[..|vs|] == vs;
  }

  function WithConfig(configs: map<string, seq<seq<string>>>, entity: string, deps: seq<string>)
    : map<string, seq<seq<string>>>
  {
    configs[entity := (if entity in configs then configs[entity] else []) + [deps]]
  }

  ghost predicate Declared(configs: map<string, seq<seq<string>>>, u: string, v: string) {
    u in configs && exists i :: 0 <= i < |configs[u]| && v in configs[u][i]
  }

  // The reverse graph is exactly the inverse of the forward graph, which holds exactly the
  // dependencies of the registered configurations.
  ghost predicate Mirrored(configs: map<string, seq<seq<string>>>, g: Graph<string>, r: Graph<string>) {
    && (forall u, v :: Edge(g, u, v) <==> Edge(r, v, u))
    && (forall u, v :: Edge(g, u, v) <==> Declared(configs, u, v))
    && g.Keys == configs.Keys
  }

  lemma RegisterKeepsMirror(configs: map<string, seq<seq<string>>>, g: Graph<string>, r: Graph<string>,
                            g': Graph<string>, r': Graph<string>, entity: string, deps: seq<string>)
    requires Mirrored(configs, g, r)
    requires g'.Keys == g.Keys + {entity}
    requires forall a, b :: Edge(g', a, b) <==> Edge(g, a, b) || (a == entity && b in deps)
    requires forall a, b :: Edge(r', b, a) <==> Edge(r, b, a) || (a == entity && b in deps)
    ensures Mirrored(WithConfig(configs, entity, deps), g', r')
  {
    var configs' := WithConfig(configs, entity, deps);
    forall u, v ensures Edge(g', u, v) <==> Declared(configs', u, v) {
      DeclaredAfter(configs, entity, deps, u, v);
    }
  }

  lemma DeclaredAfter(configs: map<string, seq<seq<string>>>, entity: string, deps: seq<string>, u: string, v: string)
    ensures Declared(WithConfig(configs, entity, deps), u, v)
      <==> Declared(configs, u, v) || (u == entity && v in deps)
  {
    var before := if entity in configs then configs[entity] else [];
    var configs' := configs[entity := before + [deps]];
    if u == entity {
      if Declared(configs, u, v) {
        var i :| 0 <= i < |before| && v in before[i];
        assert v in configs'[u][i];
      }
      if v in deps { assert v in configs'[u][|before|]; }
      if Declared(configs', u, v) {
        var i :| 0 <= i < |configs'[u]| && v in configs'[u][i];
        if i < |before| { assert v in before[i]; }
      }
    }
  }

  lemma IntoItselfIsCyclic(g: Graph<string>, p: seq<string>)
    requires LeadsIntoItself(g, p)
    ensures Cyclic(g) && !Sortable(g)
  {
    var i :| 0 <= i < |p| - 1 && p[i] == p[|p| - 1];
    WalkIntoItself(g, p, i);
    if Sortable(g) { SortableIsAcyclic(g); }
  }

  class CycleSearch {
    const graph: Graph<string>
    var visited: set<string>
    var recursionStack: set<string>
    ghost var order: seq<string>

    ghost function State(path: seq<string>): Search<string>
      reads this
    {
      Search(visited, recursionStack, path, [])
    }

    ghost predicate Inv(path: seq<string>)
      reads this
    {
      visited <= Entities(graph) && Consistent(graph, State(path), order)
    }

    constructor (graph: Graph<string>)
      ensures Inv([]) && this.graph == graph && visited == {} && recursionStack == {}
    {
      this.graph := graph;
      visited, recursionStack, order := {}, {}, [];
    }

    // `path` leads along dependencies to `entity`, its last element; `before` is the rest of it.
    method HasCycle(entity: string, path: seq<string>, ghost before: seq<string>) returns (r: Outcome)
      requires path == before + [entity] && Walk(graph, path)
      requires before != [] ==> Edge(graph, before[|before| - 1], entity)
      requires entity in Entities(graph) && entity !in visited && Inv(before)
      modifies this
      ensures r.NoCycle? ==> Inv(before) && recursionStack == old(recursionStack) && old(visited) + {entity} <= visited
      ensures r.Thrown? ==> LeadsIntoItself(graph, r.cyclePath)
      decreases Entities(graph) - visited
    {
      EnterNode(graph, State(before), order, entity);
      visited, recursionStack := visited + {entity}, recursionStack + {entity};
      if entity in graph {
        var todo := graph[entity];
        while todo != {}
          invariant todo <= graph[entity]
          invariant Inv(path) && recursionStack == old(recursionStack) + {entity}
          invariant old(visited) + {entity} <= visited
          invariant forall v :: v in graph[entity] && v !in todo ==> v in visited - recursionStack
        {
          var dep :| dep in todo;
          todo := todo - {dep};
          WalkExtends(graph, path, dep);
          InEntities(graph, entity, dep);
          if dep !in visited {
            r := HasCycle(dep, path + [dep], path);
            if r.Thrown? { return; }
          } else if dep in recursionStack {
            IntoItself(graph, path, dep);
            return Thrown(path + [dep]);
          }
        }
      }
      LeaveNode(graph, State(path), order, entity);
      assert path[..|path| - 1] == before;
      recursionStack := recursionStack - {entity};
      order := order + [entity];
      return NoCycle;
    }
  }

  lemma IntoItself(g: Graph<string>, path: seq<string>, dep: string)
    requires Walk(g, path + [dep]) && dep in path
    ensures LeadsIntoItself(g, path + [dep])
  {
    assert (path + [dep])[..|path + [dep]| - 1] == path;
  }

  // Entities that have, or are named as, dependencies.
  function Entities(g: Graph<string>): set<string> {
    g.Keys + set u, v | u in g && v in g[u] :: v
  }

  lemma InEntities(g: Graph<string>, u: string, v: string)
    requires Edge(g, u, v)
    ensures v in Entities(g)
  {
  }
}
