/** The dependency graph of a model's objects and the depth-first post-order
 *  used to pick a root object. */
module Trees {
  import opened Objects
  import opened Models
  import Attributes
  import opened Seqs

  // ---------------------------------------------------------------------
  // Adjacency map
  // ---------------------------------------------------------------------

  function NameSet(objects: seq<ObjectData>): (r: set<string>)
    ensures forall n :: n in r <==> n in ObjectNames(objects)
  {
    set i | 0 <= i < |objects| :: objects[i].name
  }

  /** The dtypes that name a model object, in order, repeats kept. */
  function KeepNames(dtypes: seq<string>, names: set<string>): (r: seq<string>)
    ensures forall d :: d in r <==> d in dtypes && d in names
  {
    if dtypes == [] then []
    else
      var init := dtypes[..|dtypes| - 1];
      var last := dtypes[|dtypes| - 1];
      assert dtypes == init + [last];
      KeepNames(init, names) + (if last in names then [last] else [])
  }

  /** The object dtypes of all attributes, attribute by attribute. */
  function Deps(attrs: seq<Attributes.AttributeData>, names: set<string>): (r: seq<string>)
    ensures forall d :: d in r <==> d in names && exists k :: 0 <= k < |attrs| && d in attrs[k].dtypes
  {
    if attrs == [] then []
    else
      var init := attrs[..|attrs| - 1];
      var last := attrs[|attrs| - 1];
      assert forall k :: 0 <= k < |init| ==> attrs[k] == init[k];
      Deps(init, names) + KeepNames(last.dtypes, names)
  }

  /** The map `extract_adjacency_map` builds: a later object of the same name
   *  overwrites the entry of an earlier one. */
  function AdjacencySpec(objects: seq<ObjectData>, names: set<string>): (r: map<string, seq<string>>)
    ensures forall n :: n in r <==> n in ObjectNames(objects)
    ensures forall n, d :: n in r && d in r[n] ==> d in names
  {
    if objects == [] then map[]
    else
      var init := objects[..|objects| - 1];
      var last := objects[|objects| - 1];
      assert ObjectNames(objects) == ObjectNames(init) + [last.name];
      AdjacencySpec(init, names)[last.name := Deps(last.attributes, names)]
  }

  /** `extract_adjacency_map`. */
  method ExtractAdjacencyMap(objects: seq<ObjectData>) returns (m: map<string, seq<string>>)
    ensures m == AdjacencySpec(objects, NameSet(objects))
  {
    var names := NameSet(objects);
    m := map[];
    for i := 0 to |objects|
      invariant m == AdjacencySpec(objects[..i], names)
    {
      var attrs := objects[i].attributes;
      var deps: seq<string> := [];
      for j := 0 to |attrs|
        invariant deps == Deps(attrs[..j], names)
      {
        assert attrs[..j + 1][..j] == attrs[..j];
        deps := deps + KeepNames(attrs[j].dtypes, names);
      }
      assert attrs[..|attrs|] == attrs;
      assert objects[..i + 1][..i] == objects[..i];
      m := m[objects[i].name := deps];
    }
    assert objects[..|objects|] == objects;
  }

  /** Each entry lists exactly the object names among the dtypes of the last
   *  object of that name. */
  lemma {:induction false} AdjacencyEntries(objects: seq<ObjectData>, names: set<string>, i: nat)
    requires i < |objects|
    requires forall j :: i < j < |objects| ==> objects[j].name != objects[i].name
    ensures var m := AdjacencySpec(objects, names); var n := objects[i].name;
      n in m && forall d :: d in m[n] <==> d in names && exists k :: 0 <= k < |objects[i].attributes| && d in objects[i].attributes[k].dtypes
  {
    if i < |objects| - 1 {
      var init := objects[..|objects| - 1];
      AdjacencyEntries(init, names, i);
    }
  }

  // ---------------------------------------------------------------------
  // Graph
  // ---------------------------------------------------------------------

  /** A directed graph over node indices with string labels; edges in the
   *  order they were added. */
  datatype Graph = Graph(labels: seq<string>, edges: seq<(nat, nat)>)

  predicate ValidGraph(g: Graph)
  {
    forall e :: e in g.edges ==> e.0 < |g.labels| && e.1 < |g.labels|
  }

  /** The targets of `n`'s outgoing edges, most recently added first, as
   *  petgraph lists them. */
  function Outgoing(edges: seq<(nat, nat)>, n: nat): (r: seq<nat>)
    ensures forall m :: m in r <==> (n, m) in edges
  {
    if edges == [] then []
    else
      var init := edges[..|edges| - 1];
      var last := edges[|edges| - 1];
      assert edges == init + [last];
      (if last.0 == n then [last.1] else []) + Outgoing(init, n)
  }

  /** The node a name maps to in the name-to-node map: the last node added
   *  under that name. */
  function NodeOf(labels: seq<string>, name: string): (k: nat)
    requires name in labels
    ensures k < |labels| && labels[k] == name
    ensures forall j :: k < j < |labels| ==> labels[j] != name
  {
    if labels[|labels| - 1] == name then |labels| - 1
    else
      assert name in labels[..|labels| - 1] by {
        var j :| 0 <= j < |labels| && labels[j] == name;
        assert labels[..|labels| - 1][j] == name;
      }
      NodeOf(labels[..|labels| - 1], name)
  }

  /** One edge dependency -> dependent per listed dependency, entry by entry
   *  in `order`. */
  function EdgesSpec(labels: seq<string>, m: map<string, seq<string>>, order: seq<string>): (r: seq<(nat, nat)>)
    requires forall k :: k in order ==> k in m && k in labels
    requires forall k, d :: k in m && d in m[k] ==> d in labels
  {
    if order == [] then []
    else
      var init := order[..|order| - 1];
      var k := order[|order| - 1];
      EdgesSpec(labels, m, init) + EntryEdges(labels, k, m[k])
  }

  function EntryEdges(labels: seq<string>, k: string, deps: seq<string>): (r: seq<(nat, nat)>)
    requires k in labels && forall d :: d in deps ==> d in labels
    ensures |r| == |deps|
    ensures forall j :: 0 <= j < |deps| ==> r[j] == (NodeOf(labels, deps[j]), NodeOf(labels, k))
  {
    seq(|deps|, j requires 0 <= j < |deps| => (NodeOf(labels, deps[j]), NodeOf(labels, k)))
  }

  /** The nodes of `dependency_graph`: one per object, in model order. */
  method AddNodes(objects: seq<ObjectData>) returns (labels: seq<string>)
    ensures labels == ObjectNames(objects)
  {
    labels := [];
    for i := 0 to |objects|
      invariant labels == ObjectNames(objects[..i])
    {
      labels := labels + [objects[i].name];
    }
    assert objects[..|objects|] == objects;
  }

  /** The edges of `dependency_graph`, entry by entry in `order`. */
  method AddEdges(labels: seq<string>, m: map<string, seq<string>>, order: seq<string>) returns (edges: seq<(nat, nat)>)
    requires forall k :: k in order ==> k in m && k in labels
    requires forall k, d :: k in m && d in m[k] ==> d in labels
    ensures edges == EdgesSpec(labels, m, order)
  {
    edges := [];
    for i := 0 to |order|
      invariant edges == EdgesSpec(labels, m, order[..i])
    {
      var k := order[i];
      var deps := m[k];
      for j := 0 to |deps|
        invariant edges == EdgesSpec(labels, m, order[..i]) + EntryEdges(labels, k, deps[..j])
      {
        edges := edges + [(NodeOf(labels, deps[j]), NodeOf(labels, k))];
      }
      assert deps[..|deps|] == deps;
      assert order[..i + 1][..i] == order[..i];
    }
    assert order[..|order|] == order;
  }

  /** `dependency_graph`: one node per object in model order, then the edges
   *  of each adjacency entry; `order` is the iteration order of the
   *  adjacency map, listing each object name once. */
  method DependencyGraph(objects: seq<ObjectData>, order: seq<string>) returns (g: Graph)
    requires Distinct(order) && forall k :: k in order <==> k in ObjectNames(objects)
    ensures g.labels == ObjectNames(objects)
    ensures g.edges == EdgesSpec(ObjectNames(objects), AdjacencySpec(objects, NameSet(objects)), order)
  {
    var m := ExtractAdjacencyMap(objects);
    var labels := AddNodes(objects);
    var edges := AddEdges(labels, m, order);
    g := Graph(labels, edges);
  }

  /** Every edge runs from a dependency to an object whose entry lists it,
   *  and every listed dependency of an entry in `order` has its edge. */
  lemma {:induction false} EdgesMatchEntries(labels: seq<string>, m: map<string, seq<string>>, order: seq<string>)
    requires forall k :: k in order ==> k in m && k in labels
    requires forall k, d :: k in m && d in m[k] ==> d in labels
    ensures var es := EdgesSpec(labels, m, order);
      forall e :: e in es ==> e.0 < |labels| && e.1 < |labels| && labels[e.1] in order && labels[e.0] in m[labels[e.1]]
    ensures var es := EdgesSpec(labels, m, order);
      forall k, d :: k in order && d in m[k] ==> (NodeOf(labels, d), NodeOf(labels, k)) in es
  {
    if order != [] {
      var init := order[..|order| - 1];
      var k := order[|order| - 1];
      EdgesMatchEntries(labels, m, init);
      var ee := EntryEdges(labels, k, m[k]);
      forall d | d in m[k] ensures (NodeOf(labels, d), NodeOf(labels, k)) in ee {
        var j :| 0 <= j < |m[k]| && m[k][j] == d;
        assert ee[j] == (NodeOf(labels, d), NodeOf(labels, k));
      }
    }
  }

  // ---------------------------------------------------------------------
  // Depth-first post-order
  // ---------------------------------------------------------------------

  function LabelSet(g: Graph): set<string>
  {
    set i | 0 <= i < |g.labels| :: g.labels[i]
  }

  /** A ranking in which every edge goes down: the graph has no cycle. */
  predicate Ranked(g: Graph, rank: seq<nat>)
  {
    |rank| == |g.labels| && forall e :: e in g.edges ==> e.0 < |rank| && e.1 < |rank| && rank[e.1] < rank[e.0]
  }

  ghost predicate Acyclic(g: Graph)
  {
    exists rank: seq<nat> :: Ranked(g, rank)
  }

  /** Every label in `stack` comes after the labels of all targets of its
   *  node's outgoing edges. */
  predicate PostOrdered(g: Graph, stack: seq<string>)
    requires ValidGraph(g)
  {
    forall i, e :: 0 <= i < |stack| && e in g.edges && g.labels[e.0] == stack[i] ==> g.labels[e.1] in stack[..i]
  }

  /** The labels entered but not yet finished all rank above `n`. */
  predicate GrayAbove(g: Graph, rank: seq<nat>, visited: set<string>, stack: seq<string>, n: nat)
    requires |rank| == |g.labels| && n < |rank|
  {
    forall m :: 0 <= m < |g.labels| && g.labels[m] in visited && g.labels[m] !in stack ==> rank[m] > rank[n]
  }

  /** `visit`: skip a visited label, otherwise mark it, visit every outgoing
   *  neighbour and push the label last. */
  method Visit(g: Graph, n: nat, visited: set<string>, stack: seq<string>, ghost ranked: bool, ghost rank: seq<nat>)
    returns (visited': set<string>, stack': seq<string>)
    requires ValidGraph(g) && n < |g.labels|
    requires visited <= LabelSet(g) && (forall x :: x in stack ==> x in visited) && Distinct(stack)
    requires ranked ==> Ranked(g, rank) && Distinct(g.labels) && PostOrdered(g, stack) && GrayAbove(g, rank, visited, stack, n)
    ensures visited <= visited' <= LabelSet(g) && g.labels[n] in visited'
    ensures |stack| <= |stack'| && stack'[..|stack|] == stack && Distinct(stack')
    ensures forall x :: x in stack' ==> x in visited'
    ensures forall x :: x in visited' && x !in stack' <==> x in visited && x !in stack
    ensures ranked ==> PostOrdered(g, stack')
    decreases LabelSet(g) - visited
  {
    var lab := g.labels[n];
    if lab in visited {
      return visited, stack;
    }
    visited' := visited + {lab};
    stack' := stack;
    var outs := Outgoing(g.edges, n);
    assert forall jj :: 0 <= jj < |outs| ==> (n, outs[jj]) in g.edges;
    for j := 0 to |outs|
      invariant visited + {lab} <= visited' <= LabelSet(g)
      invariant |stack| <= |stack'| && stack'[..|stack|] == stack && Distinct(stack')
      invariant forall x :: x in stack' ==> x in visited'
      invariant forall x :: x in visited' && x !in stack' <==> (x in visited && x !in stack) || x == lab
      invariant forall jj :: 0 <= jj < j ==> g.labels[outs[jj]] in visited'
      invariant ranked ==> PostOrdered(g, stack')
    {
      assert (n, outs[j]) in g.edges;
      if ranked {
        assert rank[outs[j]] < rank[n];
        assert GrayAbove(g, rank, visited', stack', outs[j]);
      }
      var prefix := stack';
      visited', stack' := Visit(g, outs[j], visited', stack', ranked, rank);
      assert stack'[..|stack|] == prefix[..|stack|];
    }
    assert lab !in stack';
    var before := stack';
    stack' := stack' + [lab];
    assert stack'[..|stack|] == before[..|stack|];
    if ranked {
      forall i, e | 0 <= i < |stack'| && e in g.edges && g.labels[e.0] == stack'[i]
        ensures g.labels[e.1] in stack'[..i]
      {
        if i == |before| {
          assert e.0 == n;
          assert e.1 in outs;
          assert rank[e.1] < rank[n];
          assert stack'[..i] == before;
        } else {
          assert stack'[..i] == before[..i];
        }
      }
    }
  }

  /** `get_topological_order`: `visit` from every node in index order. */
  method TopologicalOrder(g: Graph) returns (stack: seq<string>)
    requires ValidGraph(g)
    ensures Distinct(stack)
    ensures forall x :: x in stack <==> x in LabelSet(g)
    ensures Acyclic(g) && Distinct(g.labels) ==> PostOrdered(g, stack)
  {
    ghost var ranked := Acyclic(g) && Distinct(g.labels);
    ghost var rank: seq<nat> := [];
    if ranked {
      rank :| Ranked(g, rank);
    }
    var visited: set<string> := {};
    stack := [];
    for i := 0 to |g.labels|
      invariant visited <= LabelSet(g) && Distinct(stack)
      invariant forall x :: x in visited <==> x in stack
      invariant forall k :: 0 <= k < i ==> g.labels[k] in visited
      invariant ranked ==> Ranked(g, rank) && PostOrdered(g, stack)
    {
      visited, stack := Visit(g, i, visited, stack, ranked, rank);
    }
  }

  /** In an acyclic graph the first name of the order has no outgoing edge:
   *  nothing depends on it. */
  lemma FirstIsUnreferenced(g: Graph, stack: seq<string>)
    requires ValidGraph(g) && stack != [] && PostOrdered(g, stack)
    ensures forall e :: e in g.edges ==> g.labels[e.0] != stack[0]
  {
    assert stack[..0] == [];
  }
}
