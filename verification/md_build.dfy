/** `parse_markdown` after the two passes: empty objects and enumerations
 *  are dropped, internal types the document uses are merged in,
 *  inheritance is applied, and the model is validated. */
module MarkdownBuild {
  import opened Wrappers
  import opened Seqs
  import opened Attributes
  import opened Objects
  import opened Models
  import opened DataModels
  import opened Validation
  import opened MarkdownEvents
  import opened MarkdownParser
  import StableSort

  /** The built-in data types by name, in the order the type table yields
   *  them, each already parsed into a model. */
  type Internals = seq<(string, Model)>

  /** `MD_MODEL_TYPES.get(name)`. */
  function LookupType(internals: Internals, name: string): (r: Option<Model>)
    ensures r.Some? ==> (name, r.value) in internals
    ensures r.None? <==> forall i :: 0 <= i < |internals| ==> internals[i].0 != name
  {
    if internals == [] then None
    else if internals[0].0 == name then Some(internals[0].1)
    else
      var r := LookupType(internals[1..], name);
      assert r.None? <==> forall i :: 0 <= i < |internals| ==> internals[i].0 != name by {
        assert forall i :: 1 <= i < |internals| ==> internals[i] == internals[1..][i - 1];
      }
      r
  }

  // ---------------------------------------------------------------------
  // Merging several models
  // ---------------------------------------------------------------------

  function ModelObjects(m: Model): seq<ObjectData> { m.objects }
  function ModelEnums(m: Model): seq<EnumData> { m.enums }

  /** `model.merge(..)` for each model in turn; the first collision panics. */
  function MergeAll(m: Model, ms: seq<Model>): (r: Result<Model>)
    ensures r.Err? ==> r == Panic(MergePanic)
    decreases |ms|
  {
    if ms == [] then Ok(m)
    else
      match MergeSpec(m, ms[0])
      case Err(msg, panicked) => Err(msg, panicked)
      case Ok(next) => MergeAll(next, ms[1..])
  }

  /** A successful merge appends the objects and the enumerations of every
   *  model in order and keeps the name and the configuration. */
  lemma {:induction false} MergeAllAppends(m: Model, ms: seq<Model>)
    ensures MergeAll(m, ms).Ok? ==>
      MergeAll(m, ms).value == m.(objects := m.objects + ConcatMap(ModelObjects, ms),
                                  enums := m.enums + ConcatMap(ModelEnums, ms))
    decreases |ms|
  {
    if ms != [] && MergeAll(m, ms).Ok? {
      var next := MergeSpec(m, ms[0]).value;
      MergeAllAppends(next, ms[1..]);
      ConcatMapCons(ModelObjects, ms);
      ConcatMapCons(ModelEnums, ms);
      AppendAssoc(m.objects, ms[0].objects, ConcatMap(ModelObjects, ms[1..]));
      AppendAssoc(m.enums, ms[0].enums, ConcatMap(ModelEnums, ms[1..]));
    }
  }

  // ---------------------------------------------------------------------
  // Internal types
  // ---------------------------------------------------------------------

  function AttrTypes(a: AttributeData): seq<string> { a.dtypes }
  function ObjectTypes(o: ObjectData): seq<string> { ConcatMap(AttrTypes, o.attributes) }

  /** Every data type of every attribute, in order, with repeats. */
  function AllTypes(objects: seq<ObjectData>): seq<string>
  {
    ConcatMap(ObjectTypes, objects)
  }

  /** A type names exactly what some attribute lists. */
  lemma AllTypesMembers(objects: seq<ObjectData>, t: string)
    ensures t in AllTypes(objects) <==>
      exists i, j :: 0 <= i < |objects| && 0 <= j < |objects[i].attributes| && t in objects[i].attributes[j].dtypes
  {
    ConcatMapMembers(ObjectTypes, objects, t);
    forall i | 0 <= i < |objects|
      ensures t in ObjectTypes(objects[i]) <==>
        exists j :: 0 <= j < |objects[i].attributes| && t in objects[i].attributes[j].dtypes
    {
      ConcatMapMembers(AttrTypes, objects[i].attributes, t);
    }
  }

  lemma {:induction false} ConcatMapMembers<A>(f: A -> seq<string>, xs: seq<A>, t: string)
    ensures t in ConcatMap(f, xs) <==> exists i :: 0 <= i < |xs| && t in f(xs[i])
  {
    if xs != [] {
      var init := xs[..|xs| - 1];
      ConcatMapMembers(f, init, t);
      assert forall i :: 0 <= i < |init| ==> init[i] == xs[i];
    }
  }

  /** The internal types to merge: those the model's attributes use and
   *  that no object of the model already defines. */
  function Selected(internals: Internals, names: seq<string>, types: seq<string>): (r: seq<Model>)
    ensures |r| <= |internals|
    decreases |internals|
  {
    if internals == [] then []
    else
      (if internals[0].0 !in names && internals[0].0 in types then [internals[0].1] else [])
      + Selected(internals[1..], names, types)
  }

  /** `add_internal_types`: names and types are taken before any merge. */
  function InternalTypes(m: Model, internals: Internals): (r: Result<Model>)
  {
    MergeAll(m, Selected(internals, ObjectNames(m.objects), AllTypes(m.objects)))
  }

  /** A model that uses no internal type, or defines all it uses, is left
   *  as it is. */
  lemma {:induction false} InternalTypesUnused(m: Model, internals: Internals)
    requires forall i :: 0 <= i < |internals| ==>
      internals[i].0 in ObjectNames(m.objects) || internals[i].0 !in AllTypes(m.objects)
    ensures InternalTypes(m, internals) == Ok(m)
  {
    NothingSelected(internals, ObjectNames(m.objects), AllTypes(m.objects));
  }

  lemma {:induction false} NothingSelected(internals: Internals, names: seq<string>, types: seq<string>)
    requires forall i :: 0 <= i < |internals| ==> internals[i].0 in names || internals[i].0 !in types
    ensures Selected(internals, names, types) == []
    decreases |internals|
  {
    if internals != [] {
      assert forall i :: 0 <= i < |internals[1..]| ==> internals[1..][i] == internals[i + 1];
      NothingSelected(internals[1..], names, types);
    }
  }

  /** An internal type the model uses and does not define is merged: its
   *  objects end up in the model. */
  lemma {:induction false} SelectedMembers(internals: Internals, names: seq<string>, types: seq<string>, i: nat)
    requires i < |internals| && internals[i].0 !in names && internals[i].0 in types
    ensures internals[i].1 in Selected(internals, names, types)
    decreases |internals|
  {
    if i > 0 {
      assert internals[1..][i - 1] == internals[i];
      SelectedMembers(internals[1..], names, types, i - 1);
    }
  }

  /** The data types of the model, as the nested loops collect them. */
  method CollectTypes(objects: seq<ObjectData>) returns (types: seq<string>)
    ensures types == AllTypes(objects)
  {
    types := [];
    for i := 0 to |objects|
      invariant types == ConcatMap(ObjectTypes, objects[..i])
    {
      ConcatMapPrefix(ObjectTypes, objects, i);
      var attrs := objects[i].attributes;
      ghost var before := types;
      for j := 0 to |attrs|
        invariant types == before + ConcatMap(AttrTypes, attrs[..j])
      {
        ConcatMapPrefix(AttrTypes, attrs, j);
        AppendAssoc(before, ConcatMap(AttrTypes, attrs[..j]), attrs[j].dtypes);
        types := types + attrs[j].dtypes;
      }
      assert attrs[..|attrs|] == attrs;
    }
    assert objects[..|objects|] == objects;
  }

  /** `add_internal_types` on the model in place. */
  method AddInternalTypes(model: DataModel, internals: Internals) returns (r: Result<()>)
    modifies model
    ensures r == Discard(InternalTypes(old(model.Data()), internals))
    ensures r.Ok? ==> model.Data() == InternalTypes(old(model.Data()), internals).value
  {
    var allTypes := CollectTypes(model.objects);
    var names := ObjectNames(model.objects);
    ghost var start := model.Data();
    for i := 0 to |internals|
      invariant MergeAll(model.Data(), Selected(internals[i..], names, allTypes))
        == MergeAll(start, Selected(internals, names, allTypes))
    {
      assert internals[i..][1..] == internals[i + 1..];
      var (name, content) := internals[i];
      ghost var rest := Selected(internals[i + 1..], names, allTypes);
      assert Selected(internals[i..], names, allTypes)
        == (if name !in names && name in allTypes then [content] else []) + rest;
      assert ([content] + rest)[0] == content && ([content] + rest)[1..] == rest;
      if name !in names && name in allTypes {
        ghost var before := model.Data();
        r := model.Merge(content);
        if r.Err? {
          return;
        }
        assert MergeAll(before, [content] + rest) == MergeAll(model.Data(), rest);
      } else {
        assert Selected(internals[i..], names, allTypes) == rest;
      }
      assert MergeAll(model.Data(), rest) == MergeAll(start, Selected(internals, names, allTypes));
    }
    assert internals[|internals|..] == [];
    return Ok(());
  }

  // ---------------------------------------------------------------------
  // Inheritance
  // ---------------------------------------------------------------------

  predicate NoParent(o: ObjectData) { o.parent.None? }

  /** The objects without a parent, cloned before any is extended. */
  function Parentless(objects: seq<ObjectData>): seq<ObjectData>
  {
    Filter(NoParent, objects)
  }

  const ParentMissing: string := "Object has a parent that does not exist"
  const IndexPanic: string := "index out of bounds: the len is 0 but the index is 0"

  /** The objects processed so far, the internal types queued for merging
   *  and the names of those types. */
  datatype Inheritance = Inheritance(objects: seq<ObjectData>, toMerge: seq<Model>, added: seq<string>)

  /** A parent can be resolved: a parentless object of the model, or an
   *  internal type with at least one object. */
  predicate Resolvable(o: ObjectData, parents: seq<ObjectData>, internals: Internals)
  {
    o.parent.None?
    || FindObject(parents, o.parent.value).Some?
    || (LookupType(internals, o.parent.value).Some? && LookupType(internals, o.parent.value).value.objects != [])
  }

  /** The attributes an object inherits: those of its parentless parent,
   *  else those of the first object of the internal type; none when the
   *  parent does not resolve. */
  function Inherited(o: ObjectData, parents: seq<ObjectData>, internals: Internals): seq<AttributeData>
  {
    if o.parent.None? then []
    else if FindObject(parents, o.parent.value).Some? then FindObject(parents, o.parent.value).value.attributes
    else if Resolvable(o, parents, internals) then LookupType(internals, o.parent.value).value.objects[0].attributes
    else []
  }

  /** One turn of the loop over the objects. */
  function InheritStep(o: ObjectData, parents: seq<ObjectData>, internals: Internals, acc: Inheritance): (r: Result<Inheritance>)
  {
    if o.parent.None? then Ok(acc.(objects := acc.objects + [o]))
    else
      var name := o.parent.value;
      match FindObject(parents, name)
      case Some(parent) => Ok(acc.(objects := acc.objects + [o.(attributes := o.attributes + parent.attributes)]))
      case None =>
        match LookupType(internals, name)
        case None => Err(ParentMissing)
        case Some(t) =>
          if t.objects == [] then Panic(IndexPanic)
          else
            var extended := o.(attributes := o.attributes + t.objects[0].attributes);
            if name in acc.added then Ok(acc.(objects := acc.objects + [extended]))
            else Ok(Inheritance(acc.objects + [extended], acc.toMerge + [t.(objects := t.objects[1..])], acc.added + [name]))
  }

  /** The loop from the `i`-th object on. */
  function InheritFrom(objects: seq<ObjectData>, i: nat, parents: seq<ObjectData>, internals: Internals, acc: Inheritance): (r: Result<Inheritance>)
    requires i <= |objects|
    decreases |objects| - i
  {
    if i == |objects| then Ok(acc)
    else
      match InheritStep(objects[i], parents, internals, acc)
      case Err(msg, panicked) => Err(msg, panicked)
      case Ok(next) => InheritFrom(objects, i + 1, parents, internals, next)
  }

  /** The queue of internal types: one per name, with the object that was
   *  inherited from removed. */
  predicate Queued(acc: Inheritance, internals: Internals)
  {
    |acc.toMerge| == |acc.added| && Distinct(acc.added)
    && forall j :: 0 <= j < |acc.added| ==>
      LookupType(internals, acc.added[j]).Some?
      && LookupType(internals, acc.added[j]).value.objects != []
      && acc.toMerge[j] == LookupType(internals, acc.added[j]).value.(objects := LookupType(internals, acc.added[j]).value.objects[1..])
  }

  /** The loop succeeds exactly when every parent resolves; a parent that
   *  resolves nowhere is an error, not a panic. */
  lemma {:induction false} InheritFromResolves(objects: seq<ObjectData>, i: nat, parents: seq<ObjectData>, internals: Internals, acc: Inheritance)
    requires i <= |objects| && Queued(acc, internals)
    ensures var r := InheritFrom(objects, i, parents, internals, acc);
      r.Ok? <==> forall k :: i <= k < |objects| ==> Resolvable(objects[k], parents, internals)
    ensures var r := InheritFrom(objects, i, parents, internals, acc);
      r.Err? && !r.panicked ==> r.error == ParentMissing
    decreases |objects| - i
  {
    if i < |objects| {
      QueuedStep(objects[i], parents, internals, acc);
      var step := InheritStep(objects[i], parents, internals, acc);
      if step.Ok? {
        InheritFromResolves(objects, i + 1, parents, internals, step.value);
      }
    }
  }

  /** When the loop succeeds, each object has its parent's attributes
   *  appended, in place, and every internal parent type is queued once. */
  lemma {:induction false} InheritFromExtends(objects: seq<ObjectData>, i: nat, parents: seq<ObjectData>, internals: Internals, acc: Inheritance)
    requires i <= |objects| && Queued(acc, internals)
    ensures var r := InheritFrom(objects, i, parents, internals, acc);
      r.Ok? ==>
        Queued(r.value, internals)
        && |r.value.objects| == |acc.objects| + |objects| - i
        && r.value.objects[..|acc.objects|] == acc.objects
        && forall k :: i <= k < |objects| ==>
          r.value.objects[|acc.objects| + k - i]
            == objects[k].(attributes := objects[k].attributes + Inherited(objects[k], parents, internals))
    decreases |objects| - i
  {
    if i < |objects| {
      var step := InheritStep(objects[i], parents, internals, acc);
      if step.Ok? {
        var next := step.value;
        QueuedStep(objects[i], parents, internals, acc);
        InheritFromExtends(objects, i + 1, parents, internals, next);
        var r := InheritFrom(objects, i + 1, parents, internals, next);
        if r.Ok? {
          assert next.objects[..|acc.objects|] == acc.objects;
          assert r.value.objects[..|acc.objects|] == r.value.objects[..|next.objects|][..|acc.objects|];
        }
      }
    }
  }

  lemma QueuedStep(o: ObjectData, parents: seq<ObjectData>, internals: Internals, acc: Inheritance)
    requires Queued(acc, internals)
    ensures var r := InheritStep(o, parents, internals, acc);
      (r.Ok? <==> Resolvable(o, parents, internals))
      && (r.Err? && !r.panicked ==> r.error == ParentMissing)
      && (r.Ok? ==>
        Queued(r.value, internals)
        && r.value.objects == acc.objects + [o.(attributes := o.attributes + Inherited(o, parents, internals))])
  {
    var r := InheritStep(o, parents, internals, acc);
    if o.parent.None? {
      assert o.(attributes := o.attributes + []) == o;
    }
    if o.parent.Some? && FindObject(parents, o.parent.value).None? && r.Ok? {
      var name := o.parent.value;
      var t := LookupType(internals, name).value;
      assert r.value.objects == acc.objects + [o.(attributes := o.attributes + t.objects[0].attributes)];
      if name !in acc.added {
        DistinctSnoc(acc.added, name);
        assert forall j :: 0 <= j < |acc.added| ==> r.value.added[j] == acc.added[j] && r.value.toMerge[j] == acc.toMerge[j];
      }
    }
  }

  /** `add_parent_types`: the parents are the objects without a parent,
   *  taken before the loop; the queued internal types are merged after it. */
  function ParentTypes(m: Model, internals: Internals): (r: Result<Model>)
  {
    match InheritFrom(m.objects, 0, Parentless(m.objects), internals, Inheritance([], [], []))
    case Err(msg, panicked) => Err(msg, panicked)
    case Ok(acc) => MergeAll(m.(objects := acc.objects), acc.toMerge)
  }

  /** Inheritance is one level deep: a parent that itself has a parent is
   *  not found among the model's objects, so unless an internal type has
   *  its name the model is rejected. */
  lemma OneLevelInheritance(m: Model, internals: Internals, k: nat)
    requires k < |m.objects| && m.objects[k].parent.Some?
    requires forall o :: o in m.objects && o.name == m.objects[k].parent.value ==> o.parent.Some?
    requires LookupType(internals, m.objects[k].parent.value).None?
    ensures ParentTypes(m, internals).Err?
  {
    var parents := Parentless(m.objects);
    var name := m.objects[k].parent.value;
    if FindObject(parents, name).Some? {
      var p := FindObject(parents, name).value;
      FilterMembers(NoParent, m.objects, p);
    }
    assert !Resolvable(m.objects[k], parents, internals);
    InheritFromResolves(m.objects, 0, parents, internals, Inheritance([], [], []));
  }

  /** A model in which every parent resolves inherits in place: the
   *  objects keep their order, and each gains its parent's attributes. */
  lemma ParentTypesExtends(m: Model, internals: Internals)
    requires forall k :: 0 <= k < |m.objects| ==> Resolvable(m.objects[k], Parentless(m.objects), internals)
    ensures var r := ParentTypes(m, internals);
      r.Ok? ==>
        |r.value.objects| >= |m.objects|
        && forall k :: 0 <= k < |m.objects| ==>
          r.value.objects[k] == m.objects[k].(attributes := m.objects[k].attributes
            + Inherited(m.objects[k], Parentless(m.objects), internals))
    ensures ParentTypes(m, internals).Err? ==> ParentTypes(m, internals) == Panic(MergePanic)
  {
    var parents := Parentless(m.objects);
    var start := Inheritance([], [], []);
    InheritFromResolves(m.objects, 0, parents, internals, start);
    InheritFromExtends(m.objects, 0, parents, internals, start);
    var acc := InheritFrom(m.objects, 0, parents, internals, start).value;
    assert ParentTypes(m, internals) == MergeAll(m.(objects := acc.objects), acc.toMerge);
    MergeAllAppends(m.(objects := acc.objects), acc.toMerge);
    if ParentTypes(m, internals).Ok? {
      var r := ParentTypes(m, internals).value;
      assert r.objects == acc.objects + ConcatMap(ModelObjects, acc.toMerge);
      forall k | 0 <= k < |m.objects|
        ensures r.objects[k] == m.objects[k].(attributes := m.objects[k].attributes + Inherited(m.objects[k], parents, internals))
      {
        assert |start.objects| + k - 0 == k;
        assert r.objects[k] == acc.objects[k];
      }
    }
  }

  /** The loop over the objects, extending each in place. */
  method InheritParents(model: DataModel, parents: seq<ObjectData>, internals: Internals) returns (r: Result<Inheritance>)
    modifies model
    ensures r.Ok? <==> InheritFrom(old(model.objects), 0, parents, internals, Inheritance([], [], [])).Ok?
    ensures r.Ok? ==> r == InheritFrom(old(model.objects), 0, parents, internals, Inheritance([], [], []))
    ensures r.Ok? ==> model.Data() == old(model.Data()).(objects := r.value.objects)
    ensures r.Err? ==> r == InheritFrom(old(model.objects), 0, parents, internals, Inheritance([], [], []))
  {
    ghost var objects := model.objects;
    var toMerge: seq<Model> := [];
    var added: seq<string> := [];
    for i := 0 to |model.objects|
      invariant |model.objects| == |objects| && model.objects[i..] == objects[i..]
      invariant InheritFrom(objects, i, parents, internals, Inheritance(model.objects[..i], toMerge, added))
        == InheritFrom(objects, 0, parents, internals, Inheritance([], [], []))
      invariant model.name == old(model.name) && model.enums == old(model.enums) && model.config == old(model.config)
    {
      var o := model.objects[i];
      assert o == objects[i];
      var step := InheritStep(o, parents, internals, Inheritance(model.objects[..i], toMerge, added));
      if o.parent.Some? {
        var name := o.parent.value;
        var parent := FindObject(parents, name);
        if parent.Some? {
          o := o.(attributes := o.attributes + parent.value.attributes);
        } else {
          var internal := LookupType(internals, name);
          if internal.None? {
            return Err(ParentMissing);
          }
          if internal.value.objects == [] {
            return Panic(IndexPanic);
          }
          o := o.(attributes := o.attributes + internal.value.objects[0].attributes);
          if name !in added {
            toMerge := toMerge + [internal.value.(objects := internal.value.objects[1..])];
            added := added + [name];
          }
        }
      }
      model.objects := model.objects[i := o];
      assert model.objects[..i + 1] == model.objects[..i] + [o];
      assert step == Ok(Inheritance(model.objects[..i + 1], toMerge, added));
    }
    assert model.objects[..|model.objects|] == model.objects;
    return Ok(Inheritance(model.objects, toMerge, added));
  }

  /** `add_parent_types` on the model in place. */
  method AddParentTypes(model: DataModel, internals: Internals) returns (r: Result<()>)
    modifies model
    ensures r == Discard(ParentTypes(old(model.Data()), internals))
    ensures r.Ok? ==> model.Data() == ParentTypes(old(model.Data()), internals).value
  {
    var parents := Filter(NoParent, model.objects);
    var acc := InheritParents(model, parents, internals);
    if acc.Err? {
      return Err(acc.error, acc.panicked);
    }
    ghost var start := model.Data();
    for i := 0 to |acc.value.toMerge|
      invariant MergeAll(model.Data(), acc.value.toMerge[i..]) == MergeAll(start, acc.value.toMerge)
    {
      assert acc.value.toMerge[i..][1..] == acc.value.toMerge[i + 1..];
      r := model.Merge(acc.value.toMerge[i]);
      if r.Err? {
        return;
      }
    }
    assert acc.value.toMerge[|acc.value.toMerge|..] == [];
    return Ok(());
  }

  // ---------------------------------------------------------------------
  // The whole parse
  // ---------------------------------------------------------------------

  const ParentExpectPanic: string := "Failed to add parent types: "

  /** The model built from what the two passes collected: the objects with
   *  attributes and the enumerations with values, in document order, then
   *  the internal types and the inheritance. An inheritance error becomes
   *  the panic of `expect`. */
  function Assemble(name: Option<string>, objects: seq<ObjectData>, enums: seq<EnumData>,
                    config: Option<FrontMatter>, internals: Internals): (r: Result<Model>)
    ensures r.Err? ==> r.panicked
  {
    var m := Model(name, Filter(HasAttributes, objects), Filter(HasValues, enums), config);
    match InternalTypes(m, internals)
    case Err(msg, _) => Panic(msg)
    case Ok(m') =>
      match ParentTypes(m', internals)
      case Err(msg, panicked) => if panicked then Panic(msg) else Panic(ParentExpectPanic + msg)
      case Ok(m'') => Ok(m'')
  }

  /** The model a document describes, before validation. */
  function Build(events: seq<Event>, config: Option<FrontMatter>, internals: Internals): (r: Result<Model>)
    ensures r.Err? ==> r.panicked
  {
    match ObjectsPass(events, StartPass())
    case Err(msg, _) => Panic(msg)
    case Ok(p) =>
      match EnumsPass(events, EnumPass(0, []))
      case Err(msg, _) => Panic(msg)
      case Ok(q) => Assemble(p.name, p.objects, q.enums, config, internals)
  }

  /** The statements of `parse_markdown` between the passes and the
   *  validation, on a fresh `DataModel`. */
  method AssembleModel(name: Option<string>, objects: seq<ObjectData>, enums: seq<EnumData>,
                       config: Option<FrontMatter>, internals: Internals) returns (r: Result<Model>)
    ensures r == Assemble(name, objects, enums, config, internals)
  {
    var model := new DataModel(None, config);
    model.name := name;
    model.enums := Filter(HasValues, enums);
    model.objects := Filter(HasAttributes, objects);
    var internal := AddInternalTypes(model, internals);
    if internal.Err? {
      return Panic(internal.error);
    }
    var inherited := AddParentTypes(model, internals);
    if inherited.Err? {
      if inherited.panicked {
        return Panic(inherited.error);
      }
      return Panic(ParentExpectPanic + inherited.error);
    }
    return Ok(model.Data());
  }

  /** Every object the document itself contributes has attributes, and
   *  every enumeration it contributes has values. */
  lemma BuildKeepsNonEmpty(events: seq<Event>, config: Option<FrontMatter>, internals: Internals)
    requires ObjectsPass(events, StartPass()).Ok? && EnumsPass(events, EnumPass(0, [])).Ok?
    ensures var objects := Filter(HasAttributes, ObjectsPass(events, StartPass()).value.objects);
      forall k :: 0 <= k < |objects| ==> objects[k].attributes != []
    ensures var enums := Filter(HasValues, EnumsPass(events, EnumPass(0, [])).value.enums);
      forall k :: 0 <= k < |enums| ==> HasValues(enums[k])
  {
  }

  /** What `parse_markdown` returns: the model, or the validator's errors. */
  datatype Outcome = Parsed(model: Model) | Invalid(errors: seq<ValidationError>)

  /** `parse_markdown` on the event stream of a cleaned document whose
   *  front matter has been read into `config`. Panics are `Err`. */
  method ParseMarkdown(events: seq<Event>, config: Option<FrontMatter>, internals: Internals) returns (r: Result<Outcome>)
    ensures r.Err? <==> Build(events, config, internals).Err?
    ensures r.Err? ==> r.error == Build(events, config, internals).error && r.panicked
    ensures r.Ok? ==> (r.value.Parsed? <==> WellFormed(Build(events, config, internals).value))
    ensures r.Ok? && r.value.Parsed? ==> r.value.model == Build(events, config, internals).value
    ensures r.Ok? && r.value.Invalid? ==>
      multiset(r.value.errors) == ExpectedErrors(Build(events, config, internals).value)
      && r.value.errors != [] && StableSort.SortedBy(LineKey, r.value.errors)
  {
    var parser := new EventParser(events);
    var objects := parser.ParseObjects();
    if objects.Err? {
      return Panic(objects.error);
    }
    var enums := parser.ParseEnums();
    if enums.Err? {
      return Panic(enums.error);
    }
    var model := AssembleModel(parser.name, parser.objects, parser.enums, config, internals);
    if model.Err? {
      return Panic(model.error);
    }
    var validator := new Validator();
    validator.Validate(model.value);
    if !validator.isValid {
      return Ok(Invalid(validator.errors));
    }
    return Ok(Parsed(model.value));
  }
}
