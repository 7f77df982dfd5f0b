/** The JSON-LD export: a document header whose inline `@context` maps the
 *  model's prefixes and, object by object down the object graph from a
 *  root, every attribute to its term. The object graph is an input: a
 *  directed graph over the model's objects with an edge from an object to
 *  each object its attributes refer to. */
module JsonLdExport {
  import opened Wrappers
  import opened Seqs
  import opened IndexMaps
  import opened Attributes
  import opened Objects
  import opened Models
  import opened JsonLdSchema
  import Trees

  /** `DiGraph<Object, ()>`: the node objects by index and the edges in the
   *  order they were added. */
  datatype ObjectGraph = ObjectGraph(nodes: seq<ObjectData>, edges: seq<(nat, nat)>)

  /** Every edge joins two nodes and goes down in `rank`: the graph has no
   *  cycle, so the recursive context building below ends. */
  predicate RankedBy(g: ObjectGraph, rank: seq<nat>)
  {
    && |rank| == |g.nodes|
    && forall e :: e in g.edges ==> e.0 < |g.nodes| && e.1 < |g.nodes| && rank[e.1] < rank[e.0]
  }

  /** The graphs the export works on: acyclic, one node per object name. */
  predicate WellFormed(g: ObjectGraph, rank: seq<nat>)
  {
    RankedBy(g, rank) && Distinct(ObjectNames(g.nodes))
  }

  /** `graph.node_indices().find(..)`: the first node called `name`. */
  function FindNode(g: ObjectGraph, name: string): (r: Option<nat>)
    ensures r.None? <==> name !in ObjectNames(g.nodes)
    ensures r.Some? ==> r.value < |g.nodes| && g.nodes[r.value].name == name
  {
    FindFrom(g.nodes, name, 0)
  }

  function FindFrom(nodes: seq<ObjectData>, name: string, i: nat): (r: Option<nat>)
    requires i <= |nodes|
    ensures r.None? <==> forall j :: i <= j < |nodes| ==> nodes[j].name != name
    ensures r.Some? ==> i <= r.value < |nodes| && nodes[r.value].name == name
    decreases |nodes| - i
  {
    if i == |nodes| then None
    else if nodes[i].name == name then Some(i)
    else FindFrom(nodes, name, i + 1)
  }

  /** `has_nested`: one of the attribute's types names a node of the graph. */
  predicate RefersToNode(g: ObjectGraph, a: AttributeData)
  {
    exists i :: 0 <= i < |a.dtypes| && a.dtypes[i] in ObjectNames(g.nodes)
  }

  /** `get_attr_term_id`: the attribute's own term, else
   *  "{model_id}:{object}/{attribute}". */
  function AttrTermId(a: AttributeData, o: ObjectData, modelId: string): string
  {
    match a.term
    case Some(term) => term
    case None => modelId + ":" + o.name + "/" + a.name
  }

  /** `get_object_term_or_default`: the object's own term, else
   *  "{model_id}:{object}". */
  function ObjectTermOrDefault(term: Option<string>, modelId: string, name: string): string
  {
    match term
    case Some(t) => t
    case None => modelId + ":" + name
  }

  /** `build_object_context` without the cache: one term per attribute,
   *  inserted in attribute order. */
  function ObjectContext(g: ObjectGraph, ghost rank: seq<nat>, n: nat, modelId: string): SimpleContext
    requires RankedBy(g, rank) && n < |g.nodes|
    decreases rank[n], 5, 0
  {
    EmptyContext.(terms := FromPairs(AttrPairs(g, rank, n, modelId, g.nodes[n].attributes)))
  }

  /** Each attribute paired with its term. */
  function AttrPairs(g: ObjectGraph, ghost rank: seq<nat>, n: nat, modelId: string, attrs: seq<AttributeData>): (r: seq<(string, TermDef)>)
    requires RankedBy(g, rank) && n < |g.nodes|
    ensures |r| == |attrs|
    decreases rank[n], 4, 0
  {
    seq(|attrs|, i requires 0 <= i < |attrs| => (attrs[i].name, AttrTerm(g, rank, n, attrs[i], modelId)))
  }

  /** The term of one attribute of node `n`: detailed for an array or an
   *  attribute that refers to a node, else the plain IRI. */
  function AttrTerm(g: ObjectGraph, ghost rank: seq<nat>, n: nat, a: AttributeData, modelId: string): TermDef
    requires RankedBy(g, rank) && n < |g.nodes|
    decreases rank[n], 3, 0
  {
    var nested := RefersToNode(g, a);
    if nested || a.isArray then DetailedTerm(g, rank, n, a, modelId, nested)
    else Simple(AttrTermId(a, g.nodes[n], modelId))
  }

  /** `build_detailed_term_def`. */
  function DetailedTerm(g: ObjectGraph, ghost rank: seq<nat>, n: nat, a: AttributeData, modelId: string, hasNested: bool): TermDef
    requires RankedBy(g, rank) && n < |g.nodes|
    decreases rank[n], 2, 0
  {
    var objectType := if |a.dtypes| > 0 && FindNode(g, a.dtypes[0]).Some? then Some("@id") else None;
    var detail := EmptyDetail.(typeValue := objectType, container := if a.isArray then Some(One("@set")) else None);
    if hasNested then
      var nested := NestedForAttr(g, rank, n, a, modelId);
      Detailed(if nested.terms != [] then detail.(context := Some(Object(nested))) else detail)
    else Detailed(detail)
  }

  /** `build_nested_for_attr`: over the outgoing neighbours of node `n`,
   *  most recent edge first, those named among the attribute's types. */
  function NestedForAttr(g: ObjectGraph, ghost rank: seq<nat>, n: nat, a: AttributeData, modelId: string): SimpleContext
    requires RankedBy(g, rank) && n < |g.nodes|
    decreases rank[n], 1, 1
  {
    NestedOver(g, rank, n, a, modelId, Trees.Outgoing(g.edges, n))
  }

  /** The nested context built from the neighbours `nbs` of node `n`. */
  function NestedOver(g: ObjectGraph, ghost rank: seq<nat>, n: nat, a: AttributeData, modelId: string, nbs: seq<nat>): SimpleContext
    requires RankedBy(g, rank) && n < |g.nodes| && OutOf(g, n, nbs)
    decreases rank[n], 1, 0
  {
    OutOfTargets(g, rank, n, nbs);
    EmptyContext.(typeValue := NestedType(g, a, modelId, nbs), terms := FromPairs(NestedPairs(g, rank, n, a, modelId, nbs)))
  }

  /** Every listed neighbour is a node of the graph. */
  predicate Targets(g: ObjectGraph, nbs: seq<nat>)
  {
    forall j :: 0 <= j < |nbs| ==> nbs[j] < |g.nodes|
  }

  /** Every listed neighbour is the target of an edge from `n`. */
  predicate OutOf(g: ObjectGraph, n: nat, nbs: seq<nat>)
  {
    forall m :: m in nbs ==> (n, m) in g.edges
  }

  /** A prefix lists some of the same neighbours. */
  lemma PrefixNeighbours(g: ObjectGraph, n: nat, nbs: seq<nat>, j: nat)
    requires j <= |nbs|
    ensures Targets(g, nbs) ==> Targets(g, nbs[..j])
    ensures OutOf(g, n, nbs) ==> OutOf(g, n, nbs[..j])
  {
    assert forall m :: m in nbs[..j] ==> m in nbs;
    assert forall l :: 0 <= l < j ==> nbs[..j][l] == nbs[l];
  }

  /** The neighbours of `n` in a ranked graph are nodes. */
  lemma OutOfTargets(g: ObjectGraph, rank: seq<nat>, n: nat, nbs: seq<nat>)
    requires RankedBy(g, rank) && OutOf(g, n, nbs)
    ensures Targets(g, nbs)
  {
    forall j | 0 <= j < |nbs| ensures nbs[j] < |g.nodes| {
      assert nbs[j] in nbs;
    }
  }

  /** A neighbour the attribute refers to. */
  predicate Matches(g: ObjectGraph, a: AttributeData, nb: nat)
    requires nb < |g.nodes|
  {
    g.nodes[nb].name in a.dtypes
  }

  /** The term entries of the matching neighbours' contexts, in order. */
  function NestedPairs(g: ObjectGraph, ghost rank: seq<nat>, n: nat, a: AttributeData, modelId: string, nbs: seq<nat>): seq<(string, TermDef)>
    requires RankedBy(g, rank) && n < |g.nodes|
    requires OutOf(g, n, nbs)
    decreases rank[n], 0, |nbs|
  {
    if nbs == [] then []
    else
      var nb := nbs[|nbs| - 1];
      assert nb in nbs;
      PrefixNeighbours(g, n, nbs, |nbs| - 1);
      NestedPairs(g, rank, n, a, modelId, nbs[..|nbs| - 1])
        + (if Matches(g, a, nb) then ObjectContext(g, rank, nb, modelId).terms else [])
  }

  /** `@type` of a nested context: the term of the last matching neighbour. */
  function NestedType(g: ObjectGraph, a: AttributeData, modelId: string, nbs: seq<nat>): Option<TypeOrVec>
    requires Targets(g, nbs)
  {
    if nbs == [] then None
    else
      var nb := nbs[|nbs| - 1];
      assert nb in nbs;
      PrefixNeighbours(g, 0, nbs, |nbs| - 1);
      if Matches(g, a, nb) then Some(Single(ObjectTermOrDefault(g.nodes[nb].term, modelId, g.nodes[nb].name)))
      else NestedType(g, a, modelId, nbs[..|nbs| - 1])
  }

  // ---------------------------------------------------------------------
  // Properties of the terms
  // ---------------------------------------------------------------------

  /** An attribute gets a plain IRI term, its own term or
   *  "{model_id}:{object}/{attribute}", unless it is an array or refers to
   *  a node; then it gets a detailed term whose `@container` is "@set"
   *  exactly for an array, whose `@type` is "@id" exactly when its first
   *  type names a node, which carries a nested context exactly when the
   *  attribute refers to a node whose nested context has terms, and which
   *  sets nothing else. */
  lemma AttrTermShape(g: ObjectGraph, rank: seq<nat>, n: nat, a: AttributeData, modelId: string)
    requires RankedBy(g, rank) && n < |g.nodes|
    ensures var t := AttrTerm(g, rank, n, a, modelId);
      && (t.Simple? <==> !a.isArray && !RefersToNode(g, a))
      && (t.Simple? ==> t.iri == (if a.term.Some? then a.term.value else modelId + ":" + g.nodes[n].name + "/" + a.name))
      && (t.Detailed? ==>
            && (t.detail.container == Some(One("@set")) <==> a.isArray)
            && (!a.isArray ==> t.detail.container.None?)
            && (t.detail.typeValue == Some("@id") <==> |a.dtypes| > 0 && a.dtypes[0] in ObjectNames(g.nodes))
            && (t.detail.typeValue.Some? ==> t.detail.typeValue == Some("@id"))
            && (t.detail.context.Some? <==> RefersToNode(g, a) && NestedForAttr(g, rank, n, a, modelId).terms != [])
            && (t.detail.context.Some? ==> t.detail.context.value == Object(NestedForAttr(g, rank, n, a, modelId)))
            && t.detail.(typeValue := None, container := None, context := None) == EmptyDetail)
  {
  }
  /** An object's context holds one term per attribute name, in attribute
   *  order, and sets no keyword; with distinct attribute names each name
   *  reads its attribute's term. */
  lemma ObjectContextTerms(g: ObjectGraph, rank: seq<nat>, n: nat, modelId: string)
    requires RankedBy(g, rank) && n < |g.nodes|
    ensures var c := ObjectContext(g, rank, n, modelId);
      var attrs := g.nodes[n].attributes;
      && Valid(c.terms)
      && Keys(c.terms) == Dedup(Names(attrs))
      && c.(terms := []) == EmptyContext
      && (Distinct(Names(attrs)) ==>
            forall i :: 0 <= i < |attrs| ==> Get(c.terms, attrs[i].name) == Some(AttrTerm(g, rank, n, attrs[i], modelId)))
  {
    var attrs := g.nodes[n].attributes;
    var ps := AttrPairs(g, rank, n, modelId, attrs);
    assert Keys(ps) == Names(attrs);
    FromPairsContents(ps);
    if Distinct(Names(attrs)) {
      forall i | 0 <= i < |attrs| ensures Get(FromPairs(ps), attrs[i].name) == Some(AttrTerm(g, rank, n, attrs[i], modelId)) {
        FromPairsEntry(ps, i);
      }
    }
  }

  /** Entry `j` of `nbs` is the last neighbour there that matches. */
  predicate LastMatch(g: ObjectGraph, a: AttributeData, nbs: seq<nat>, j: nat)
    requires Targets(g, nbs)
  {
    && j < |nbs| && Matches(g, a, nbs[j])
    && forall l :: j < l < |nbs| ==> !Matches(g, a, nbs[l])
  }

  /** The `@type` of a nested context is absent exactly when no neighbour
   *  matches, and otherwise is the term of the last one that does. */
  lemma {:induction false} NestedTypeLast(g: ObjectGraph, a: AttributeData, modelId: string, nbs: seq<nat>)
    requires Targets(g, nbs)
    ensures var t := NestedType(g, a, modelId, nbs);
      && (t.None? <==> forall j :: 0 <= j < |nbs| ==> !Matches(g, a, nbs[j]))
      && (t.Some? ==> exists j: nat :: (LastMatch(g, a, nbs, j)
            && t.value == Single(ObjectTermOrDefault(g.nodes[nbs[j]].term, modelId, g.nodes[nbs[j]].name))))
  {
    if nbs != [] {
      var init := nbs[..|nbs| - 1];
      PrefixNeighbours(g, 0, nbs, |nbs| - 1);
      NestedTypeLast(g, a, modelId, init);
      assert forall j :: 0 <= j < |init| ==> init[j] == nbs[j];
      if !Matches(g, a, nbs[|nbs| - 1]) && NestedType(g, a, modelId, init).Some? {
        var j: nat :| LastMatch(g, a, init, j)
          && NestedType(g, a, modelId, init).value == Single(ObjectTermOrDefault(g.nodes[init[j]].term, modelId, g.nodes[init[j]].name));
        assert LastMatch(g, a, nbs, j) by {
          forall l | j < l < |nbs| ensures !Matches(g, a, nbs[l]) {
            if l < |init| {
              assert nbs[l] == init[l];
            }
          }
        }
      } else if Matches(g, a, nbs[|nbs| - 1]) {
        assert LastMatch(g, a, nbs, |nbs| - 1);
      }
    }
  }

  /** Some matching neighbour's context has the name `k`. */
  predicate NestedHas(g: ObjectGraph, rank: seq<nat>, a: AttributeData, modelId: string, nbs: seq<nat>, k: string)
    requires RankedBy(g, rank) && Targets(g, nbs)
  {
    exists j :: 0 <= j < |nbs| && Matches(g, a, nbs[j]) && k in Keys(ObjectContext(g, rank, nbs[j], modelId).terms)
  }

  /** One more neighbour adds the names of its context when it matches. */
  lemma NestedPairsKeysSnoc(g: ObjectGraph, rank: seq<nat>, n: nat, a: AttributeData, modelId: string, nbs: seq<nat>, k: string)
    requires RankedBy(g, rank) && n < |g.nodes| && nbs != [] && OutOf(g, n, nbs)
    ensures OutOf(g, n, nbs[..|nbs| - 1]) && Targets(g, nbs)
    ensures k in Keys(NestedPairs(g, rank, n, a, modelId, nbs)) <==>
      || k in Keys(NestedPairs(g, rank, n, a, modelId, nbs[..|nbs| - 1]))
      || (Matches(g, a, nbs[|nbs| - 1]) && k in Keys(ObjectContext(g, rank, nbs[|nbs| - 1], modelId).terms))
  {
    var init := nbs[..|nbs| - 1];
    var nb := nbs[|nbs| - 1];
    PrefixNeighbours(g, n, nbs, |nbs| - 1);
    assert nb in nbs;
    var own := if Matches(g, a, nb) then ObjectContext(g, rank, nb, modelId).terms else [];
    KeysAppend(NestedPairs(g, rank, n, a, modelId, init), own);
  }

  /** Some neighbour up to the last one has the name exactly when one before
   *  the last has it, or the last one does. */
  lemma NestedHasSnoc(g: ObjectGraph, rank: seq<nat>, a: AttributeData, modelId: string, nbs: seq<nat>, k: string)
    requires RankedBy(g, rank) && nbs != [] && Targets(g, nbs)
    ensures Targets(g, nbs[..|nbs| - 1])
    ensures NestedHas(g, rank, a, modelId, nbs, k) <==>
      || NestedHas(g, rank, a, modelId, nbs[..|nbs| - 1], k)
      || (Matches(g, a, nbs[|nbs| - 1]) && k in Keys(ObjectContext(g, rank, nbs[|nbs| - 1], modelId).terms))
  {
    var init := nbs[..|nbs| - 1];
    PrefixNeighbours(g, 0, nbs, |nbs| - 1);
    assert nbs[|nbs| - 1] in nbs;
    assert forall j :: 0 <= j < |init| ==> init[j] == nbs[j];
    if NestedHas(g, rank, a, modelId, nbs, k) {
      var j :| 0 <= j < |nbs| && Matches(g, a, nbs[j]) && k in Keys(ObjectContext(g, rank, nbs[j], modelId).terms);
      if j < |init| {
        assert NestedHas(g, rank, a, modelId, init, k);
      }
    }
  }

  /** A name is among the nested terms exactly when the context of some
   *  matching neighbour has it. */
  lemma {:induction false} NestedPairsKeys(g: ObjectGraph, rank: seq<nat>, n: nat, a: AttributeData, modelId: string, nbs: seq<nat>, k: string)
    requires RankedBy(g, rank) && n < |g.nodes| && OutOf(g, n, nbs)
    ensures Targets(g, nbs)
    ensures k in Keys(NestedPairs(g, rank, n, a, modelId, nbs)) <==> NestedHas(g, rank, a, modelId, nbs, k)
  {
    OutOfTargets(g, rank, n, nbs);
    if nbs != [] {
      NestedPairsKeysSnoc(g, rank, n, a, modelId, nbs, k);
      NestedPairsKeys(g, rank, n, a, modelId, nbs[..|nbs| - 1], k);
      NestedHasSnoc(g, rank, a, modelId, nbs, k);
    }
  }

  /** `build_nested_for_attr` merges the term definitions of every outgoing
   *  neighbour named among the attribute's types, keeping the names
   *  distinct, and takes `@type` from the last such neighbour: its own term,
   *  else "{model_id}:{name}"; without such a neighbour there is no `@type`.
   *  No other keyword is set. */
  lemma NestedForAttrContents(g: ObjectGraph, rank: seq<nat>, n: nat, a: AttributeData, modelId: string, k: string)
    requires RankedBy(g, rank) && n < |g.nodes|
    ensures var c := NestedForAttr(g, rank, n, a, modelId);
      var nbs := Trees.Outgoing(g.edges, n);
      && Targets(g, nbs)
      && Valid(c.terms)
      && c.(typeValue := None, terms := []) == EmptyContext
      && (c.typeValue.None? <==> forall j :: 0 <= j < |nbs| ==> !Matches(g, a, nbs[j]))
      && (c.typeValue.Some? ==> exists j: nat :: (LastMatch(g, a, nbs, j)
            && c.typeValue.value == Single(ObjectTermOrDefault(g.nodes[nbs[j]].term, modelId, g.nodes[nbs[j]].name))))
      && (k in Keys(c.terms) <==> NestedHas(g, rank, a, modelId, nbs, k))
  {
    var nbs := Trees.Outgoing(g.edges, n);
    NestedPairsKeys(g, rank, n, a, modelId, nbs, k);
    NestedTypeLast(g, a, modelId, nbs);
    FromPairsContents(NestedPairs(g, rank, n, a, modelId, nbs));
  }

  // ---------------------------------------------------------------------
  // The document header
  // ---------------------------------------------------------------------

  /** The model id: the configured prefix when it is not empty, else the
   *  configured id, else "model". */
  function ModelId(config: FrontMatter): string
  {
    if config.prefix != "" then config.prefix
    else if config.id.Some? then config.id.value
    else "model"
  }

  /** Each configured prefix mapped to its URI as a plain term. */
  function PrefixTerms(prefixes: StringMap): (r: seq<(string, TermDef)>)
    ensures |r| == |prefixes|
  {
    seq(|prefixes|, i requires 0 <= i < |prefixes| => (prefixes[i].0, Simple(prefixes[i].1)))
  }

  /** The terms every context starts with: the model id mapped to the
   *  repository, then the configured prefixes. */
  function BaseTerms(config: FrontMatter): seq<(string, TermDef)>
  {
    [(ModelId(config), Simple(config.repo))] + PrefixTerms(config.prefixes.UnwrapOr([]))
  }

  /** The root the context is built for: the one named, else the first
   *  object. */
  function RootName(m: Model, root: Option<string>): (r: Result<string>)
  {
    match root
    case Some(name) => Ok(name)
    case None => if m.objects == [] then Err("No objects found in model") else Ok(m.objects[0].name)
  }

  /** The terms of the root's context, when the graph has the root. */
  function RootTerms(g: ObjectGraph, ghost rank: seq<nat>, rootName: string, modelId: string): IndexMap<TermDef>
    requires RankedBy(g, rank)
  {
    match FindNode(g, rootName)
    case Some(i) => ObjectContext(g, rank, i, modelId).terms
    case None => []
  }

  /** `create_context`. `graph` is what `tree::object_graph` yields for the
   *  root's name. */
  function ContextOf(m: Model, root: Option<string>, graph: Result<ObjectGraph>, ghost rank: seq<nat>): Result<SimpleContext>
    requires graph.Ok? ==> RankedBy(graph.value, rank)
  {
    var config := ConfigOrDefault(m.config);
    match RootName(m, root)
    case Err(e, p) => Err(e, p)
    case Ok(rootName) =>
      match graph
      case Err(e, p) => Err(e, p)
      case Ok(g) => Ok(EmptyContext.(terms := FromPairs(BaseTerms(config) + RootTerms(g, rank, rootName, ModelId(config)))))
  }

  /** The object whose type the header carries. */
  function RootObject(m: Model, root: Option<string>): Result<ObjectData>
  {
    match root
    case Some(name) =>
      (match FindObject(m.objects, name)
       case Some(o) => Ok(o)
       case None => Err("Object " + name + " not found"))
    case None => if m.objects == [] then Err("No objects found in model") else Ok(m.objects[0])
  }

  /** `to_json_ld`: the context and the `@type` of the header. */
  function JsonLdOf(m: Model, root: Option<string>, graph: Result<ObjectGraph>, ghost rank: seq<nat>): Result<(SimpleContext, TypeOrVec)>
    requires graph.Ok? ==> RankedBy(graph.value, rank)
  {
    match ContextOf(m, root, graph, rank)
    case Err(e, p) => Err(e, p)
    case Ok(context) =>
      match RootObject(m, root)
      case Err(e, p) => Err(e, p)
      case Ok(o) => Ok((context, Single(ObjectTermOrDefault(o.term, ConfigOrDefault(m.config).prefix, o.name))))
  }

  /** The last prefix configured under `k` is the last prefix term. */
  lemma {:induction false} PrefixTermsLast(prefixes: StringMap, k: string)
    ensures LastValue(PrefixTerms(prefixes), k) ==
      (match LastValue(prefixes, k) case Some(uri) => Some(Simple(uri)) case None => None)
  {
    if prefixes != [] {
      var init := prefixes[..|prefixes| - 1];
      assert PrefixTerms(prefixes)[..|prefixes| - 1] == PrefixTerms(init);
      PrefixTermsLast(init, k);
    }
  }

  /** `to_json_ld` fails when no root is named and the model has no objects,
   *  when the object graph cannot be built, and when the named root is not
   *  an object of the model, with the message of the first of these;
   *  otherwise the header's `@type` is the root object's term, else
   *  "{prefix}:{name}". */
  lemma JsonLdOfOutcome(m: Model, root: Option<string>, graph: Result<ObjectGraph>, rank: seq<nat>)
    requires graph.Ok? ==> RankedBy(graph.value, rank)
    ensures var r := JsonLdOf(m, root, graph, rank);
      && (r.Err? <==> (root.None? && m.objects == []) || graph.Err?
                      || (root.Some? && root.value !in ObjectNames(m.objects)))
      && (root.None? && m.objects == [] ==> r.error == "No objects found in model")
      && (!(root.None? && m.objects == []) && graph.Err? ==> r.error == graph.error && r.panicked == graph.panicked)
      && (root.Some? && graph.Ok? && root.value !in ObjectNames(m.objects) ==> r.error == "Object " + root.value + " not found")
      && (r.Ok? ==> r.value.0 == ContextOf(m, root, graph, rank).value)
      && (r.Ok? ==>
            var o := if root.Some? then FindObject(m.objects, root.value).value else m.objects[0];
            && o.name == (if root.Some? then root.value else m.objects[0].name)
            && r.value.1 == Single(if o.term.Some? then o.term.value else ConfigOrDefault(m.config).prefix + ":" + o.name))
  {
  }

  /** The context maps each name to the last definition given for it: a term
   *  of the root's context, else the last configured prefix of that name
   *  mapped to its URI, else, for the model id, the repository. Nothing else
   *  is defined, no name twice, and no other keyword is set. */
  lemma ContextOfTerms(m: Model, root: Option<string>, graph: Result<ObjectGraph>, rank: seq<nat>, k: string)
    requires graph.Ok? ==> RankedBy(graph.value, rank)
    requires ContextOf(m, root, graph, rank).Ok?
    ensures var c := ContextOf(m, root, graph, rank).value;
      var config := ConfigOrDefault(m.config);
      var rootTerms := RootTerms(graph.value, rank, RootName(m, root).value, ModelId(config));
      && Valid(c.terms)
      && c.(terms := []) == EmptyContext
      && Get(c.terms, k) ==
           if k in Keys(rootTerms) then Get(rootTerms, k)
           else if LastValue(config.prefixes.UnwrapOr([]), k).Some? then Some(Simple(LastValue(config.prefixes.UnwrapOr([]), k).value))
           else if k == ModelId(config) then Some(Simple(config.repo))
           else None
  {
    var config := ConfigOrDefault(m.config);
    var g := graph.value;
    var rootName := RootName(m, root).value;
    var rootTerms := RootTerms(g, rank, rootName, ModelId(config));
    var base := BaseTerms(config);
    assert graph == Ok(g) && RootName(m, root) == Ok(rootName);
    assert ContextOf(m, root, graph, rank) == Ok(EmptyContext.(terms := FromPairs(base + rootTerms)));
    FromPairsContents(base + rootTerms);
    LastValueAppend(base, rootTerms, k);
    RootTermsValid(g, rank, rootName, ModelId(config));
    ValidLastValue(rootTerms, k);
    BaseTermsLast(config, k);
  }

  /** The root's terms form a valid map. */
  lemma RootTermsValid(g: ObjectGraph, rank: seq<nat>, rootName: string, modelId: string)
    requires RankedBy(g, rank)
    ensures Valid(RootTerms(g, rank, rootName, modelId))
  {
    if FindNode(g, rootName).Some? {
      ObjectContextTerms(g, rank, FindNode(g, rootName).value, modelId);
    }
  }

  /** The base terms define a name by its last configured prefix, else the
   *  model id by the repository. */
  lemma BaseTermsLast(config: FrontMatter, k: string)
    ensures var prefixes := config.prefixes.UnwrapOr([]);
      LastValue(BaseTerms(config), k) ==
        if LastValue(prefixes, k).Some? then Some(Simple(LastValue(prefixes, k).value))
        else if k == ModelId(config) then Some(Simple(config.repo))
        else None
  {
    var prefixes := config.prefixes.UnwrapOr([]);
    LastValueAppend([(ModelId(config), Simple(config.repo))], PrefixTerms(prefixes), k);
    PrefixTermsLast(prefixes, k);
    LastValueIn(PrefixTerms(prefixes), k);
    assert LastValue([(ModelId(config), Simple(config.repo))], k) == if k == ModelId(config) then Some(Simple(config.repo)) else None by {
      assert [(ModelId(config), Simple(config.repo))][..0] == [];
    }
  }

  /** The first part of `create_context`: the model id mapped to the
   *  repository, then each configured prefix to its URI. */
  method BaseContext(config: FrontMatter) returns (context: SimpleContext)
    ensures context == EmptyContext.(terms := FromPairs(BaseTerms(config)))
  {
    var modelId := ModelId(config);
    var first := [(modelId, Simple(config.repo))];
    var terms := Insert([], modelId, Simple(config.repo));
    assert terms == FromPairs(first) by {
      assert first[..0] == [];
    }
    var prefixes := config.prefixes.UnwrapOr([]);
    if config.prefixes.Some? {
      for i := 0 to |prefixes|
        invariant terms == FromPairs(first + PrefixTerms(prefixes[..i]))
      {
        PrefixTermsSnoc(first, prefixes, i);
        terms := Insert(terms, prefixes[i].0, Simple(prefixes[i].1));
      }
      assert prefixes[..|prefixes|] == prefixes;
    } else {
      assert first + PrefixTerms(prefixes) == first;
    }
    context := EmptyContext.(terms := terms);
  }

  /** One more prefix is one more insertion. */
  lemma PrefixTermsSnoc(first: seq<(string, TermDef)>, prefixes: StringMap, i: nat)
    requires i < |prefixes|
    ensures FromPairs(first + PrefixTerms(prefixes[..i + 1]))
      == Insert(FromPairs(first + PrefixTerms(prefixes[..i])), prefixes[i].0, Simple(prefixes[i].1))
  {
    assert first + PrefixTerms(prefixes[..i + 1]) == (first + PrefixTerms(prefixes[..i])) + [(prefixes[i].0, Simple(prefixes[i].1))];
    FromPairsSnoc(first + PrefixTerms(prefixes[..i]), (prefixes[i].0, Simple(prefixes[i].1)));
  }

  /** `create_context`: the model id and the prefixes are inserted first,
   *  then the root object's terms, built through the cache. */
  method CreateContext(m: Model, root: Option<string>, graph: Result<ObjectGraph>, ghost rank: seq<nat>) returns (r: Result<SimpleContext>)
    requires graph.Ok? ==> WellFormed(graph.value, rank)
    ensures r == ContextOf(m, root, graph, rank)
  {
    var config := ConfigOrDefault(m.config);
    var modelId := ModelId(config);
    var context := BaseContext(config);
    var rootName: string;
    match root {
      case Some(name) =>
        rootName := name;
      case None =>
        if m.objects == [] {
          return Err("No objects found in model");
        }
        rootName := m.objects[0].name;
    }
    if graph.Err? {
      return Err(graph.error, graph.panicked);
    }
    var g := graph.value;
    var rootIdx := FindNode(g, rootName);
    if rootIdx.Some? {
      var builder := new ContextBuilder(g, rank, modelId);
      var objContext := builder.BuildObjectContext(rootIdx.value);
      var merged := MergeTerms(context.terms, objContext.terms);
      InsertAllFromPairs(BaseTerms(config), objContext.terms);
      context := context.(terms := merged);
    } else {
      assert BaseTerms(config) + [] == BaseTerms(config);
    }
    r := Ok(context);
  }

  /** `to_json_ld`: a header whose context is the created context, whose
   *  `@type` is the root's term and which has no `@id`. */
  method ToJsonLd(m: Model, root: Option<string>, graph: Result<ObjectGraph>, ghost rank: seq<nat>) returns (r: Result<JsonLdHeader>)
    requires graph.Ok? ==> WellFormed(graph.value, rank)
    ensures var spec := JsonLdOf(m, root, graph, rank);
      && (r.Ok? <==> spec.Ok?)
      && (r.Err? ==> r.error == spec.error && r.panicked == spec.panicked)
      && (r.Ok? ==> && fresh(r.value)
                    && r.value.context == Some(Object(spec.value.0))
                    && r.value.typeValue == Some(spec.value.1)
                    && r.value.id.None?)
  {
    var context := CreateContext(m, root, graph, rank);
    if context.Err? {
      return Err(context.error, context.panicked);
    }
    var config := ConfigOrDefault(m.config);
    var rootObject: ObjectData;
    match root {
      case Some(name) =>
        var found := FindObject(m.objects, name);
        if found.None? {
          return Err("Object " + name + " not found");
        }
        rootObject := found.value;
      case None =>
        if m.objects == [] {
          return Err("No objects found in model");
        }
        rootObject := m.objects[0];
    }
    var objectType := match rootObject.term {
      case Some(term) => Single(term)
      case None => Single(config.prefix + ":" + rootObject.name)
    };
    var header := new JsonLdHeader();
    header.context := Some(Object(context.value));
    header.typeValue := Some(objectType);
    r := Ok(header);
  }

  // ---------------------------------------------------------------------
  // The cached, imperative builder
  // ---------------------------------------------------------------------

  /** Every name that is in `after` but not in `before` belongs to a node
   *  ranked below `bound`. */
  ghost predicate AddedBelow(g: ObjectGraph, rank: seq<nat>, before: set<string>, after: set<string>, bound: nat)
  {
    forall i :: 0 <= i < |g.nodes| && i < |rank| && g.nodes[i].name in after && g.nodes[i].name !in before ==> rank[i] < bound
  }

  /** The context of one more attribute is one more pair. */
  lemma AttrPairsSnoc(g: ObjectGraph, rank: seq<nat>, n: nat, modelId: string, attrs: seq<AttributeData>, i: nat)
    requires RankedBy(g, rank) && n < |g.nodes| && i < |attrs|
    ensures AttrPairs(g, rank, n, modelId, attrs[..i + 1])
      == AttrPairs(g, rank, n, modelId, attrs[..i]) + [(attrs[i].name, AttrTerm(g, rank, n, attrs[i], modelId))]
  {
  }

  /** One more neighbour: its context's entries and, when it matches, its
   *  term as `@type`. */
  lemma NestedSnoc(g: ObjectGraph, rank: seq<nat>, n: nat, a: AttributeData, modelId: string, nbs: seq<nat>, j: nat)
    requires RankedBy(g, rank) && n < |g.nodes| && j < |nbs| && OutOf(g, n, nbs)
    ensures OutOf(g, n, nbs[..j]) && OutOf(g, n, nbs[..j + 1])
    ensures Targets(g, nbs[..j]) && Targets(g, nbs[..j + 1])
    ensures (n, nbs[j]) in g.edges && nbs[j] < |g.nodes|
    ensures NestedPairs(g, rank, n, a, modelId, nbs[..j + 1]) == NestedPairs(g, rank, n, a, modelId, nbs[..j])
      + (if Matches(g, a, nbs[j]) then ObjectContext(g, rank, nbs[j], modelId).terms else [])
    ensures NestedType(g, a, modelId, nbs[..j + 1]) ==
      if Matches(g, a, nbs[j]) then Some(Single(ObjectTermOrDefault(g.nodes[nbs[j]].term, modelId, g.nodes[nbs[j]].name)))
      else NestedType(g, a, modelId, nbs[..j])
  {
    assert nbs[..j + 1][..j] == nbs[..j];
    assert nbs[j] in nbs;
    PrefixNeighbours(g, n, nbs, j);
    PrefixNeighbours(g, n, nbs, j + 1);
    OutOfTargets(g, rank, n, nbs[..j]);
    OutOfTargets(g, rank, n, nbs[..j + 1]);
  }

  /** The nested context over one more neighbour. */
  lemma NestedOverSnoc(g: ObjectGraph, rank: seq<nat>, n: nat, a: AttributeData, modelId: string, nbs: seq<nat>, j: nat)
    requires RankedBy(g, rank) && n < |g.nodes| && j < |nbs| && OutOf(g, n, nbs)
    ensures OutOf(g, n, nbs[..j]) && OutOf(g, n, nbs[..j + 1])
    ensures (n, nbs[j]) in g.edges && nbs[j] < |g.nodes|
    ensures var before := NestedOver(g, rank, n, a, modelId, nbs[..j]);
      var nb := nbs[j];
      NestedOver(g, rank, n, a, modelId, nbs[..j + 1]) ==
        if Matches(g, a, nb) then
          before.(typeValue := Some(Single(ObjectTermOrDefault(g.nodes[nb].term, modelId, g.nodes[nb].name))),
                  terms := InsertAll(before.terms, ObjectContext(g, rank, nb, modelId).terms))
        else before
  {
    NestedSnoc(g, rank, n, a, modelId, nbs, j);
    var before := NestedOver(g, rank, n, a, modelId, nbs[..j]);
    var after := NestedOver(g, rank, n, a, modelId, nbs[..j + 1]);
    var pre := NestedPairs(g, rank, n, a, modelId, nbs[..j]);
    assert before == EmptyContext.(typeValue := NestedType(g, a, modelId, nbs[..j]), terms := FromPairs(pre));
    assert after == EmptyContext.(typeValue := NestedType(g, a, modelId, nbs[..j + 1]),
                                  terms := FromPairs(NestedPairs(g, rank, n, a, modelId, nbs[..j + 1])));
    if Matches(g, a, nbs[j]) {
      InsertAllFromPairs(pre, ObjectContext(g, rank, nbs[j], modelId).terms);
    } else {
      assert pre + [] == pre;
    }
  }

  /** `for (key, value) in entries { terms.insert(key, value) }`. */
  method MergeTerms(terms: IndexMap<TermDef>, entries: IndexMap<TermDef>) returns (r: IndexMap<TermDef>)
    ensures r == InsertAll(terms, entries)
  {
    r := terms;
    for k := 0 to |entries|
      invariant r == InsertAll(terms, entries[..k])
    {
      assert entries[..k + 1][..k] == entries[..k];
      r := Insert(r, entries[k].0, entries[k].1);
    }
    assert entries[..|entries|] == entries;
  }

  /** The graph, the model id and the `HashMap<String, SimpleContext>` cache
   *  that `build_object_context`, `build_detailed_term_def` and
   *  `build_nested_for_attr` share. */
  class ContextBuilder {
    const graph: ObjectGraph
    ghost const rank: seq<nat>
    const modelId: string
    var cache: map<string, SimpleContext>
    /** The objects whose context was computed, in the order it was. */
    ghost var built: seq<string>

    /** Every cached context is the context of its object, and each object
     *  was computed once. */
    ghost predicate Valid()
      reads this
    {
      && WellFormed(graph, rank)
      && (forall i :: 0 <= i < |graph.nodes| && graph.nodes[i].name in cache ==>
            cache[graph.nodes[i].name] == ObjectContext(graph, rank, i, modelId))
      && (forall k :: k in cache ==> k in ObjectNames(graph.nodes))
      && Distinct(built)
      && (forall k :: k in built <==> k in cache)
    }

    constructor (graph: ObjectGraph, ghost rank: seq<nat>, modelId: string)
      requires WellFormed(graph, rank)
      ensures Valid()
      ensures this.graph == graph && this.rank == rank && this.modelId == modelId
      ensures cache == map[] && built == []
    {
      this.graph := graph;
      this.rank := rank;
      this.modelId := modelId;
      cache := map[];
      built := [];
    }

    /** `build_object_context`: a cached context is handed back as it is;
     *  otherwise the context is computed, cached and logged. */
    method BuildObjectContext(n: nat) returns (c: SimpleContext)
      requires Valid() && n < |graph.nodes|
      modifies this
      ensures Valid() && c == ObjectContext(graph, rank, n, modelId)
      ensures graph.nodes[n].name in cache
      ensures old(built) <= built && old(cache).Keys <= cache.Keys
      ensures AddedBelow(graph, rank, old(cache).Keys, cache.Keys, rank[n] + 1)
      decreases rank[n], 5, 0
    {
      var name := graph.nodes[n].name;
      if name in cache {
        return cache[name];
      }
      var attrs := graph.nodes[n].attributes;
      var terms: IndexMap<TermDef> := [];
      ghost var start := cache.Keys;
      for i := 0 to |attrs|
        invariant Valid()
        invariant terms == FromPairs(AttrPairs(graph, rank, n, modelId, attrs[..i]))
        invariant old(built) <= built && start <= cache.Keys
        invariant AddedBelow(graph, rank, start, cache.Keys, rank[n])
      {
        var a := attrs[i];
        var nested := RefersToNode(graph, a);
        var term: TermDef;
        if nested || a.isArray {
          ghost var before := cache.Keys;
          term := BuildDetailedTermDef(n, a, nested);
          assert AddedBelow(graph, rank, start, cache.Keys, rank[n]) by {
            assert AddedBelow(graph, rank, start, before, rank[n]);
          }
        } else {
          term := Simple(AttrTermId(a, graph.nodes[n], modelId));
        }
        AttrPairsSnoc(graph, rank, n, modelId, attrs, i);
        FromPairsSnoc(AttrPairs(graph, rank, n, modelId, attrs[..i]), (a.name, term));
        terms := Insert(terms, a.name, term);
      }
      assert attrs[..|attrs|] == attrs;
      c := EmptyContext.(terms := terms);
      assert name !in cache;
      cache := cache[name := c];
      built := built + [name];
      assert forall i :: 0 <= i < |graph.nodes| && graph.nodes[i].name == name ==> i == n;
    }

    /** `build_detailed_term_def`. */
    method BuildDetailedTermDef(n: nat, a: AttributeData, hasNested: bool) returns (t: TermDef)
      requires Valid() && n < |graph.nodes|
      modifies this
      ensures Valid() && t == DetailedTerm(graph, rank, n, a, modelId, hasNested)
      ensures old(built) <= built && old(cache).Keys <= cache.Keys
      ensures AddedBelow(graph, rank, old(cache).Keys, cache.Keys, rank[n])
      decreases rank[n], 2, 0
    {
      var objectType := if |a.dtypes| > 0 && FindNode(graph, a.dtypes[0]).Some? then Some("@id") else None;
      var detail := EmptyDetail.(typeValue := objectType, container := if a.isArray then Some(One("@set")) else None);
      if hasNested {
        var nested := BuildNestedForAttr(n, a);
        if nested.terms != [] {
          detail := detail.(context := Some(Object(nested)));
        }
      }
      t := Detailed(detail);
    }

    /** `build_nested_for_attr`. */
    method BuildNestedForAttr(n: nat, a: AttributeData) returns (c: SimpleContext)
      requires Valid() && n < |graph.nodes|
      modifies this
      ensures Valid() && c == NestedForAttr(graph, rank, n, a, modelId)
      ensures old(built) <= built && old(cache).Keys <= cache.Keys
      ensures AddedBelow(graph, rank, old(cache).Keys, cache.Keys, rank[n])
      decreases rank[n], 1, 1
    {
      var nbs := Trees.Outgoing(graph.edges, n);
      c := EmptyContext;
      ghost var start := cache.Keys;
      for j := 0 to |nbs|
        invariant Valid()
        invariant OutOf(graph, n, nbs[..j])
        invariant c == NestedOver(graph, rank, n, a, modelId, nbs[..j])
        invariant old(built) <= built && start <= cache.Keys
        invariant AddedBelow(graph, rank, start, cache.Keys, rank[n])
      {
        ghost var before := cache.Keys;
        c := VisitNeighbour(n, a, nbs, j, c);
        assert AddedBelow(graph, rank, start, cache.Keys, rank[n]) by {
          assert AddedBelow(graph, rank, start, before, rank[n]);
        }
      }
      assert nbs[..|nbs|] == nbs;
    }

    /** One turn of the neighbour loop of `build_nested_for_attr`: a
     *  neighbour named among the attribute's types sets `@type` and has the
     *  terms of its context merged in. */
    method VisitNeighbour(n: nat, a: AttributeData, nbs: seq<nat>, j: nat, c: SimpleContext) returns (c': SimpleContext)
      requires Valid() && n < |graph.nodes| && j < |nbs| && OutOf(graph, n, nbs)
      requires OutOf(graph, n, nbs[..j]) && c == NestedOver(graph, rank, n, a, modelId, nbs[..j])
      modifies this
      ensures Valid() && OutOf(graph, n, nbs[..j + 1])
      ensures c' == NestedOver(graph, rank, n, a, modelId, nbs[..j + 1])
      ensures old(built) <= built && old(cache).Keys <= cache.Keys
      ensures AddedBelow(graph, rank, old(cache).Keys, cache.Keys, rank[n])
      decreases rank[n], 1, 0
    {
      NestedOverSnoc(graph, rank, n, a, modelId, nbs, j);
      c' := c;
      var nb := nbs[j];
      if graph.nodes[nb].name in a.dtypes {
        var nested := BuildObjectContext(nb);
        var merged := MergeTerms(c.terms, nested.terms);
        c' := c.(typeValue := Some(Single(ObjectTermOrDefault(graph.nodes[nb].term, modelId, graph.nodes[nb].name))),
                 terms := merged);
      }
    }
  }
}
