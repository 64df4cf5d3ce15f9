/**
 * `formatHierarchyForDisplay` and `rootLibraries`: the hierarchy turned into
 * the node and edge lists the front end draws as a directed graph.
 *
 * `Render` is the graph as a function of the hierarchy; the method
 * `FormatHierarchyForDisplay` builds it with the source's loops and is proved
 * to produce it. The lemmas state the shape of the graph without reference to
 * the order of keys, which Swift leaves unspecified.
 */
module GraphDisplay {
  import opened DependencyHierarchy

  /** The id of the synthetic node that stands for the application itself. */
  const AppName: string := "App"

  /** `nodeDict(name:)`: a node of the rendered graph. */
  datatype Node = Node(id: string)

  /** `edgeDict(source:target:)`: an edge from a library to one it depends on. */
  datatype Edge = Edge(source: string, target: string)

  /** The `["nodes": ..., "edges": ...]` dictionary. */
  datatype Graph = Graph(nodes: seq<Node>, edges: seq<Edge>)

  /** Whether some library lists `name` among its dependencies. */
  ghost predicate IsListed(h: Hierarchy, name: string) {
    exists k :: k in h.deps && name in h.deps[k]
  }

  /** `Set(hierarchy.flatMap { $1 })`: every name in some dependency list. */
  function AllDependencies(h: Hierarchy): set<string> {
    set k, d | k in h.deps && d in h.deps[k] :: d
  }

  /** The elements of `names` that are not in `excluded`, in order. */
  function Without(names: seq<string>, excluded: set<string>): seq<string> {
    if names == [] then []
    else (if names[0] in excluded then [] else [names[0]]) + Without(names[1..], excluded)
  }

  /** `Without` keeps exactly the names outside `excluded`, and repeats none
      that its input does not repeat. */
  lemma {:induction false} WithoutAre(names: seq<string>, excluded: set<string>)
    ensures forall x :: x in Without(names, excluded) <==> x in names && x !in excluded
    ensures Distinct(names) ==> Distinct(Without(names, excluded))
  {
    if names != [] {
      WithoutAre(names[1..], excluded);
      assert Distinct(names) ==> names[0] !in names[1..] && Distinct(names[1..]);
    }
  }

  /** `rootLibraries`: the set difference of the keys and all listed
      dependencies, as a sequence (in key order; Swift's order is unspecified). */
  function RootLibraries(h: Hierarchy): seq<string> {
    Without(h.keys, AllDependencies(h))
  }

  /** The root libraries are exactly the libraries that no library depends on,
      each named once. */
  lemma RootLibrariesAre(h: Hierarchy)
    ensures forall x :: x in RootLibraries(h) <==> x in h.deps && !IsListed(h, x)
    ensures Distinct(RootLibraries(h))
  {
    WithoutAre(h.keys, AllDependencies(h));
  }

  /** One node per name, in order. */
  function NodesOf(names: seq<string>): seq<Node> {
    seq(|names|, i requires 0 <= i < |names| => Node(names[i]))
  }

  /** One edge from `source` to each of `targets`, in order. */
  function EdgesTo(source: string, targets: seq<string>): seq<Edge> {
    seq(|targets|, i requires 0 <= i < |targets| => Edge(source, targets[i]))
  }

  lemma EdgesToAre(source: string, targets: seq<string>, e: Edge)
    ensures e in EdgesTo(source, targets) <==> e.source == source && e.target in targets
  {
    var edges := EdgesTo(source, targets);
    if e in edges {
      var j :| 0 <= j < |edges| && edges[j] == e;
      assert e.target == targets[j];
    }
    if e.source == source && e.target in targets {
      var j :| 0 <= j < |targets| && targets[j] == e.target;
      assert edges[j] == e;
    }
  }

  lemma EdgesToSnoc(source: string, targets: seq<string>, j: nat)
    requires j < |targets|
    ensures EdgesTo(source, targets[..j + 1]) == EdgesTo(source, targets[..j]) + [Edge(source, targets[j])]
  {
  }

  lemma NodesOfSnoc(names: seq<string>, i: nat)
    requires i < |names|
    ensures NodesOf(names[..i + 1]) == NodesOf(names[..i]) + [Node(names[i])]
  {
  }

  /** The library-to-dependency edges of the first `n` keys, key by key. */
  function DependencyEdges(h: Hierarchy, n: nat): seq<Edge>
    requires n <= |h.keys|
  {
    if n == 0 then []
    else DependencyEdges(h, n - 1) + EdgesTo(h.keys[n - 1], h.deps[h.keys[n - 1]])
  }

  /** The summed lengths of the dependency lists of the first `n` keys. */
  function ListedCount(h: Hierarchy, n: nat): nat
    requires n <= |h.keys|
  {
    if n == 0 then 0 else ListedCount(h, n - 1) + |h.deps[h.keys[n - 1]]|
  }

  /** The graph of a hierarchy: the `App` node and one node per library; an
      edge from `App` to each root library, then one edge per entry of each
      dependency list. */
  function Render(h: Hierarchy): Graph {
    Graph([Node(AppName)] + NodesOf(h.keys),
          EdgesTo(AppName, RootLibraries(h)) + DependencyEdges(h, |h.keys|))
  }

  /** A sequence without repetitions is as long as its set of elements. */
  lemma {:induction false} DistinctCardinality(s: seq<string>)
    requires Distinct(s)
    ensures |set x | x in s| == |s|
  {
    if s != [] {
      assert Distinct(s[1..]);
      DistinctCardinality(s[1..]);
      assert (set x | x in s) == (set x | x in s[1..]) + {s[0]};
      assert s[0] !in (set x | x in s[1..]);
    }
  }

  /** Nodes: `App` comes first, then exactly one node per library. */
  lemma RenderNodes(h: Hierarchy)
    ensures Render(h).nodes[0] == Node(AppName)
    ensures |Render(h).nodes| == 1 + |h.deps|
    ensures forall x :: Node(x) in Render(h).nodes <==> x == AppName || x in h.deps
  {
    DistinctCardinality(h.keys);
    assert h.deps.Keys == set x | x in h.keys;
    var nodes := Render(h).nodes;
    forall x | Node(x) in nodes
      ensures x == AppName || x in h.deps
    {
      var i :| 0 <= i < |nodes| && nodes[i] == Node(x);
      if i > 0 {
        assert nodes[i] == Node(h.keys[i - 1]);
      }
    }
    forall x | x in h.deps
      ensures Node(x) in nodes
    {
      var i :| 0 <= i < |h.keys| && h.keys[i] == x;
      assert nodes[i + 1] == Node(x);
    }
  }

  /** Node ids are all different exactly when no library is called `App`. */
  lemma NodeIdsDistinct(h: Hierarchy)
    ensures Distinct(Render(h).nodes) <==> AppName !in h.deps
  {
    var nodes := Render(h).nodes;
    if AppName in h.deps {
      var i :| 0 <= i < |h.keys| && h.keys[i] == AppName;
      assert nodes[0] == nodes[i + 1];
    } else {
      forall i, j | 0 <= i < j < |nodes|
        ensures nodes[i] != nodes[j]
      {
        assert nodes[j] == Node(h.keys[j - 1]);
        if i > 0 {
          assert nodes[i] == Node(h.keys[i - 1]);
        }
      }
    }
  }

  /** An edge of the first `n` keys' lists leaves one of those keys towards a
      name on its list, and every such pair is an edge. */
  lemma {:induction false} DependencyEdgesAre(h: Hierarchy, n: nat, e: Edge)
    requires n <= |h.keys|
    ensures e in DependencyEdges(h, n)
            <==> exists i :: 0 <= i < n && e.source == h.keys[i] && e.target in h.deps[h.keys[i]]
    ensures |DependencyEdges(h, n)| == ListedCount(h, n)
  {
    if n > 0 {
      DependencyEdgesAre(h, n - 1, e);
      EdgesToAre(h.keys[n - 1], h.deps[h.keys[n - 1]], e);
    }
  }

  /**
   * Edges: an edge leaves `App` for a root library, or leaves a library for a
   * name on its dependency list; each such pair is an edge. Their number is
   * the number of roots plus the summed lengths of all dependency lists.
   */
  lemma RenderEdges(h: Hierarchy, e: Edge)
    ensures e in Render(h).edges
            <==> || (e.source == AppName && e.target in h.deps && !IsListed(h, e.target))
                 || (e.source in h.deps && e.target in h.deps[e.source])
    ensures |Render(h).edges| == |RootLibraries(h)| + ListedCount(h, |h.keys|)
  {
    DependencyEdgesAre(h, |h.keys|, e);
    EdgesToAre(AppName, RootLibraries(h), e);
    RootLibrariesAre(h);
    if e.source in h.deps {
      var i :| 0 <= i < |h.keys| && h.keys[i] == e.source;
    }
  }

  /** When every listed dependency is itself a library, every edge joins two
      nodes of the graph. */
  lemma EdgesEndAtNodes(h: Hierarchy)
    requires Closed(h)
    ensures forall e :: e in Render(h).edges ==>
              Node(e.source) in Render(h).nodes && Node(e.target) in Render(h).nodes
  {
    RenderNodes(h);
    forall e | e in Render(h).edges
      ensures Node(e.source) in Render(h).nodes && Node(e.target) in Render(h).nodes
    {
      RenderEdges(h, e);
    }
  }

  /**
   * `formatHierarchyForDisplay`: starts from the `App` node and the root
   * edges, then appends one node per library and one edge per entry of its
   * list. The lookup of each key's list cannot fail, because every key has a
   * list, so the source's throwing guard never fires.
   */
  method FormatHierarchyForDisplay(h: Hierarchy) returns (g: Graph)
    ensures g == Render(h)
  {
    var appName := AppName;
    var nodes := [Node(appName)];
    var roots := RootLibraries(h);
    var edges := EdgesTo(appName, roots);
    for i := 0 to |h.keys|
      invariant nodes == [Node(AppName)] + NodesOf(h.keys[..i])
      invariant edges == EdgesTo(AppName, roots) + DependencyEdges(h, i)
    {
      var library := h.keys[i];
      NodesOfSnoc(h.keys, i);
      nodes := nodes + [Node(library)];
      var dependencies := h.deps[library];
      ghost var before := edges;
      for j := 0 to |dependencies|
        invariant edges == before + EdgesTo(library, dependencies[..j])
      {
        EdgesToSnoc(library, dependencies, j);
        edges := edges + [Edge(library, dependencies[j])];
      }
      assert dependencies[..|dependencies|] == dependencies;
      assert DependencyEdges(h, i + 1) == DependencyEdges(h, i) + EdgesTo(library, dependencies);
    }
    assert h.keys[..|h.keys|] == h.keys;
    return Graph(nodes, edges);
  }
}
