/** The draft-07 JSON schema writer: the schema of one object, with the
 *  objects and enumerations its attributes refer to as definitions. The
 *  schema is built as a JSON value by assigning keys one after another. */
module DraftSchema {
  import opened Wrappers
  import opened JsonValues
  import Text
  import Numbers
  import Options
  import OrderedMaps
  import Seqs
  import opened Attributes
  import opened Objects
  import opened Models
  import P = Primitives

  const DefinitionsKey: string := "definitions"
  const SchemaVersion: string := "http://json-schema.org/draft-07/schema"

  /** `RefType`: a reference found on an attribute. */
  datatype RefType = ObjectRef(name: string) | EnumRef(name: string)

  function DefPath(reference: string): string
  {
    "#/" + DefinitionsKey + "/" + reference
  }

  function NotFoundPanic(reference: string): string
  {
    "Reference " + reference + " not found in the markdown file"
  }

  // ---------------------------------------------------------------------
  // Properties
  // ---------------------------------------------------------------------

  /** `extract_primitives_and_refs`: the primitive dtypes and the others,
   *  each in input order. */
  function PrimitivesAndRefs(dtypes: seq<string>): (seq<string>, seq<string>)
  {
    (P.Keep(P.NewPrimitiveTypes(), dtypes, true), P.Keep(P.NewPrimitiveTypes(), dtypes, false))
  }

  /** The two parts together are exactly the input, repeats counted, and a
   *  dtype is a reference exactly when it is not primitive. */
  lemma SplitPartition(dtypes: seq<string>)
    ensures multiset(PrimitivesAndRefs(dtypes).0) + multiset(PrimitivesAndRefs(dtypes).1) == multiset(dtypes)
    ensures forall d :: d in PrimitivesAndRefs(dtypes).1 <==> d in dtypes && !P.IsPrimitive(P.NewPrimitiveTypes(), d)
  {
    P.FiltersPartition(P.NewPrimitiveTypes(), dtypes);
    forall d ensures d in PrimitivesAndRefs(dtypes).1 <==> d in dtypes && !P.IsPrimitive(P.NewPrimitiveTypes(), d) {
      P.KeepMembers(P.NewPrimitiveTypes(), dtypes, false, d);
    }
  }

  /** An `f64` that `serde_json` cannot write as a number: infinities and
   *  NaN become `null`. */
  predicate NonFinite(s: string)
  {
    var body := if s != [] && (s[0] == '+' || s[0] == '-') then s[1..] else s;
    Text.ToLower(body) in {"inf", "infinity", "nan"}
  }

  /** How `set_options` writes an option's value: as a number when it reads
   *  as an `f64`, as a string otherwise. */
  function OptionJson(value: string): (r: Json)
    ensures !Numbers.IsFloatLiteral(value) <==> r == JString(value)
    ensures Numbers.IsFloatLiteral(value) && !NonFinite(value) ==> r == JNumber(value)
    ensures Numbers.IsFloatLiteral(value) && NonFinite(value) ==> r == JNull
  {
    if !Numbers.IsFloatLiteral(value) then JString(value)
    else if NonFinite(value) then JNull
    else JNumber(value)
  }

  /** Each option as the key and value `set_options` reads from it. */
  function OptionPairs(options: seq<Options.AttrOption>): (r: seq<(string, string)>)
    ensures |r| == |options|
    ensures forall i :: 0 <= i < |options| ==> r[i] == (Options.Key(options[i]), Options.Value(options[i]))
  {
    seq(|options|, i requires 0 <= i < |options| => Options.ToPair(options[i]))
  }

  /** `set_options` as a value: every option written under its key, in
   *  order. */
  function WithOptions(property: Json, pairs: seq<(string, string)>): (r: Json)
    requires property.JObject?
    ensures r.JObject?
    decreases |pairs|
  {
    if pairs == [] then property
    else
      var last := pairs[|pairs| - 1];
      SetKey(WithOptions(property, pairs[..|pairs| - 1]), last.0, OptionJson(last.1))
  }

  /** The options leave every other key as it was. */
  lemma {:induction false} OptionsKeepOthers(property: Json, pairs: seq<(string, string)>, k: string)
    requires property.JObject?
    requires forall i :: 0 <= i < |pairs| ==> pairs[i].0 != k
    ensures Get(WithOptions(property, pairs), k) == Get(property, k)
    decreases |pairs|
  {
    if pairs != [] {
      OptionsKeepOthers(property, pairs[..|pairs| - 1], k);
    }
  }

  /** The last option with a key decides that key's value. */
  lemma {:induction false} OptionsLastWins(property: Json, pairs: seq<(string, string)>, i: nat)
    requires property.JObject? && i < |pairs|
    requires forall j :: i < j < |pairs| ==> pairs[j].0 != pairs[i].0
    ensures Get(WithOptions(property, pairs), pairs[i].0) == Some(OptionJson(pairs[i].1))
    decreases |pairs|
  {
    if i < |pairs| - 1 {
      var init := pairs[..|pairs| - 1];
      assert init[i] == pairs[i];
      OptionsLastWins(property, init, i);
    }
  }

  /** `set_options`. */
  method SetOptions(property: Json, options: seq<Options.AttrOption>) returns (r: Json)
    requires property.JObject?
    ensures r == WithOptions(property, OptionPairs(options))
  {
    ghost var pairs := OptionPairs(options);
    r := property;
    for i := 0 to |options|
      invariant r == WithOptions(property, pairs[..i])
    {
      assert pairs[..i + 1][..i] == pairs[..i];
      r := SetKey(r, Options.Key(options[i]), OptionJson(Options.Value(options[i])));
    }
    assert pairs[..|options|] == pairs;
  }

  /** `create_property`. */
  function NewProperty(name: string): Json
  {
    JObject([("title", JString(name))])
  }

  /** The JSON type of a primitive dtype. */
  function JsonType(primitive: string): string
    requires P.IsPrimitive(P.NewPrimitiveTypes(), primitive)
  {
    P.PrimitivesAreMapped(primitive);
    P.DtypeToJson(P.NewPrimitiveTypes(), primitive).value
  }

  /** The description written when the docstring is not empty. */
  function WithDescription(v: Json, docstring: string): (r: Json)
    requires v.JObject?
    ensures r.JObject?
    ensures Get(r, "description") == if docstring != "" then Some(JString(docstring)) else Get(v, "description")
    ensures forall k :: k != "description" ==> Get(r, k) == Get(v, k)
  {
    if docstring != "" then SetKey(v, "description", JString(docstring)) else v
  }

  /** The term written when there is one. */
  function WithTerm(v: Json, term: Option<string>): (r: Json)
    requires v.JObject?
    ensures r.JObject?
    ensures Get(r, "term") == if term.Some? then Some(JString(term.value)) else Get(v, "term")
    ensures forall k :: k != "term" ==> Get(r, k) == Get(v, k)
  {
    if term.Some? then SetKey(v, "term", JString(term.value)) else v
  }

  /** The part of a property `process_primitive` writes before the type:
   *  the title, the description when the docstring is not empty and the
   *  term when there is one. */
  function Described(a: AttributeData): (r: Json)
    ensures r.JObject?
    ensures Get(r, "title") == Some(JString(a.name))
    ensures Get(r, "description") == if a.docstring != "" then Some(JString(a.docstring)) else None
    ensures Get(r, "term") == if a.term.Some? then Some(JString(a.term.value)) else None
    ensures forall k :: k != "title" && k != "description" && k != "term" ==> Get(r, k).None?
  {
    WithTerm(WithDescription(NewProperty(a.name), a.docstring), a.term)
  }

  /** What `process_primitive` and `set_primitive_dtype` write under an
   *  attribute's name before its options: the described property with the
   *  JSON type of the primitive, as the items' type for an array. */
  function PrimitiveBase(a: AttributeData, primitive: string): (r: Json)
    requires P.IsPrimitive(P.NewPrimitiveTypes(), primitive)
    ensures r.JObject?
    ensures a.isArray ==>
      Get(r, "type") == Some(JString("array"))
      && Get(r, "items") == Some(JObject([("type", JString(JsonType(primitive)))]))
    ensures !a.isArray ==> Get(r, "type") == Some(JString(JsonType(primitive))) && Get(r, "items").None?
    ensures forall k :: k != "type" && k != "items" ==> Get(r, k) == Get(Described(a), k)
  {
    var p := Described(a);
    if a.isArray then
      SetKey(SetKey(p, "type", JString("array")), "items", JObject([("type", JString(JsonType(primitive)))]))
    else SetKey(p, "type", JString(JsonType(primitive)))
  }

  /** `process_primitive`: the property is replaced, so nothing an earlier
   *  dtype wrote survives. */
  function PrimitiveProperty(a: AttributeData, primitive: string): (r: Json)
    requires P.IsPrimitive(P.NewPrimitiveTypes(), primitive)
    ensures r.JObject?
  {
    WithOptions(PrimitiveBase(a, primitive), OptionPairs(a.options))
  }

  /** `process_enum_reference`: a fresh property holding the title and the
   *  reference, whatever the attribute's other settings. */
  function EnumRefProperty(name: string, reference: string): (r: Json)
    ensures r.JObject?
    ensures Get(r, "title") == Some(JString(name)) && Get(r, "$ref") == Some(JString(DefPath(reference)))
    ensures forall k :: k != "title" && k != "$ref" ==> Get(r, k).None?
  {
    SetKey(NewProperty(name), "$ref", JString(DefPath(reference)))
  }

  /** What `process_reference` and `set_ref_dtype` write into the property
   *  already stored under the attribute's name (or into a new one) before
   *  the options: the term when there is one, then the reference, as the
   *  items' reference for an array. */
  function RefBase(existing: Json, a: AttributeData, reference: string): (r: Json)
    requires existing.JNull? || existing.JObject?
    ensures r.JObject?
    ensures a.term.Some? ==> Get(r, "term") == Some(JString(a.term.value))
    ensures a.isArray ==>
      Get(r, "type") == Some(JString("array"))
      && Get(r, "items") == Some(JObject([("$ref", JString(DefPath(reference)))]))
    ensures !a.isArray ==> Get(r, "$ref") == Some(JString(DefPath(reference)))
    ensures forall k :: k != "term" && k != "type" && k != "items" && k != "$ref" ==> Get(r, k) == Get(existing, k)
  {
    var p1 := if a.term.Some? then SetKey(existing, "term", JString(a.term.value)) else existing;
    if a.isArray then
      SetKey(SetKey(p1, "type", JString("array")), "items", JObject([("$ref", JString(DefPath(reference)))]))
    else SetKey(p1, "$ref", JString(DefPath(reference)))
  }

  function RefProperty(existing: Json, a: AttributeData, reference: string): (r: Json)
    requires existing.JNull? || existing.JObject?
    ensures r.JObject?
  {
    WithOptions(RefBase(existing, a, reference), OptionPairs(a.options))
  }

  /** Every property stored so far is a JSON object. */
  ghost predicate Shaped(properties: Json)
  {
    properties.JObject? && forall k :: Get(properties, k).Some? ==> Get(properties, k).value.JObject?
  }

  lemma SetShaped(properties: Json, name: string, x: Json)
    requires Shaped(properties) && x.JObject?
    ensures Shaped(SetKey(properties, name, x))
  {
  }

  // ---------------------------------------------------------------------
  // Classes
  // ---------------------------------------------------------------------

  /** A reference as `process_class` records it: enumeration names are
   *  checked before object names. */
  function RefOf(m: Model, reference: string): (r: RefType)
    ensures r.name == reference
  {
    if reference in EnumNames(m.enums) then EnumRef(reference) else ObjectRef(reference)
  }

  predicate Known(m: Model, reference: string)
  {
    reference in EnumNames(m.enums) || reference in ObjectNames(m.objects)
  }

  /** `HashSet::insert`, with the set listed in the order elements arrive. */
  function InsertRef(refs: seq<RefType>, x: RefType): seq<RefType>
  {
    if x in refs then refs else refs + [x]
  }

  /** The primitives of one attribute, one after another. */
  function PrimitivesFold(properties: Json, a: AttributeData, primitives: seq<string>): (r: Json)
    requires Shaped(properties)
    requires forall i :: 0 <= i < |primitives| ==> P.IsPrimitive(P.NewPrimitiveTypes(), primitives[i])
    ensures Shaped(r)
    decreases |primitives|
  {
    if primitives == [] then properties
    else
      var last := primitives[|primitives| - 1];
      SetShaped(PrimitivesFold(properties, a, primitives[..|primitives| - 1]), a.name, PrimitiveProperty(a, last));
      SetKey(PrimitivesFold(properties, a, primitives[..|primitives| - 1]), a.name, PrimitiveProperty(a, last))
  }

  /** Each primitive replaces the property, so the last one decides it, and
   *  no other property changes. */
  lemma {:induction false} LastPrimitiveWins(properties: Json, a: AttributeData, primitives: seq<string>)
    requires Shaped(properties)
    requires forall i :: 0 <= i < |primitives| ==> P.IsPrimitive(P.NewPrimitiveTypes(), primitives[i])
    ensures primitives != [] ==>
      Get(PrimitivesFold(properties, a, primitives), a.name) == Some(PrimitiveProperty(a, primitives[|primitives| - 1]))
    ensures forall k :: k != a.name ==> Get(PrimitivesFold(properties, a, primitives), k) == Get(properties, k)
    decreases |primitives|
  {
    if primitives != [] {
      LastPrimitiveWins(properties, a, primitives[..|primitives| - 1]);
    }
  }

  /** One reference of an attribute: an enumeration reference replaces the
   *  property, an object reference completes the one already there, any
   *  other name panics. */
  function ReferenceStep(properties: Json, refs: seq<RefType>, a: AttributeData, reference: string, m: Model)
    : (r: Result<(Json, seq<RefType>)>)
    requires Shaped(properties)
    ensures r.Ok? <==> Known(m, reference)
    ensures r.Err? ==> r == Panic(NotFoundPanic(reference))
    ensures r.Ok? ==> Shaped(r.value.0) && r.value.1 == InsertRef(refs, RefOf(m, reference))
    ensures r.Ok? ==> forall k :: k != a.name ==> Get(r.value.0, k) == Get(properties, k)
    ensures r.Ok? && reference in EnumNames(m.enums) ==>
      Get(r.value.0, a.name) == Some(EnumRefProperty(a.name, reference))
    ensures r.Ok? && reference !in EnumNames(m.enums) ==>
      Get(r.value.0, a.name) == Some(RefProperty(At(properties, a.name), a, reference))
  {
    if reference in EnumNames(m.enums) then
      SetShaped(properties, a.name, EnumRefProperty(a.name, reference));
      Ok((SetKey(properties, a.name, EnumRefProperty(a.name, reference)), InsertRef(refs, EnumRef(reference))))
    else if reference in ObjectNames(m.objects) then
      var p := RefProperty(At(properties, a.name), a, reference);
      SetShaped(properties, a.name, p);
      Ok((SetKey(properties, a.name, p), InsertRef(refs, ObjectRef(reference))))
    else Panic(NotFoundPanic(reference))
  }

  /** The references of one attribute, stopping at the first unknown one. */
  function RefsFold(properties: Json, refs: seq<RefType>, a: AttributeData, references: seq<string>, m: Model)
    : (r: Result<(Json, seq<RefType>)>)
    requires Shaped(properties)
    ensures r.Ok? ==> Shaped(r.value.0)
    ensures r.Err? ==> r.panicked
    decreases |references|
  {
    if references == [] then Ok((properties, refs))
    else
      match RefsFold(properties, refs, a, references[..|references| - 1], m)
      case Err(e, p) => Err(e, p)
      case Ok(acc) => ReferenceStep(acc.0, acc.1, a, references[|references| - 1], m)
  }

  /** One attribute: its primitives, then its references. */
  function AttributeStep(properties: Json, refs: seq<RefType>, a: AttributeData, m: Model)
    : (r: Result<(Json, seq<RefType>)>)
    requires Shaped(properties)
    ensures r.Ok? ==> Shaped(r.value.0)
    ensures r.Err? ==> r.panicked
  {
    var split := PrimitivesAndRefs(a.dtypes);
    RefsFold(PrimitivesFold(properties, a, split.0), refs, a, split.1, m)
  }

  function AttributesFold(properties: Json, refs: seq<RefType>, attributes: seq<AttributeData>, m: Model)
    : (r: Result<(Json, seq<RefType>)>)
    requires Shaped(properties)
    ensures r.Ok? ==> Shaped(r.value.0)
    ensures r.Err? ==> r.panicked
    decreases |attributes|
  {
    if attributes == [] then Ok((properties, refs))
    else
      match AttributesFold(properties, refs, attributes[..|attributes| - 1], m)
      case Err(e, p) => Err(e, p)
      case Ok(acc) => AttributeStep(acc.0, acc.1, attributes[|attributes| - 1], m)
  }

  /** The object `process_class` starts from: the title, the type "object"
   *  and no properties yet. */
  function ClassBase(o: ObjectData): (r: Json)
    ensures r.JObject?
    ensures Get(r, "title") == Some(JString(o.name)) && Get(r, "type") == Some(JString("object"))
    ensures Get(r, "properties") == Some(JObject([]))
    ensures forall k :: k != "title" && k != "type" && k != "properties" ==> Get(r, k).None?
  {
    SetKey(SetKey(SetKey(JNull, "title", JString(o.name)), "type", JString("object")), "properties", JObject([]))
  }

  /** The schema before the attributes: the base, with the description and
   *  the term. */
  function ClassHeader(o: ObjectData): (r: Json)
    ensures r.JObject?
  {
    WithTerm(WithDescription(ClassBase(o), o.docstring), o.term)
  }

  /** The header holds the title, the type "object", empty properties, the
   *  description when the docstring is not empty, the term when there is
   *  one, and nothing else. */
  lemma ClassHeaderFields(o: ObjectData)
    ensures var r := ClassHeader(o);
      Get(r, "title") == Some(JString(o.name)) && Get(r, "type") == Some(JString("object"))
      && Get(r, "properties") == Some(JObject([]))
      && Get(r, "description") == (if o.docstring != "" then Some(JString(o.docstring)) else None)
      && Get(r, "term") == (if o.term.Some? then Some(JString(o.term.value)) else None)
    ensures forall k :: k != "title" && k != "type" && k != "properties" && k != "description" && k != "term" ==>
      Get(ClassHeader(o), k).None?
  {
    HeaderBase(o);
    HeaderDescription(o);
    HeaderTerm(o);
    HeaderNothingElse(o);
  }

  lemma HeaderBase(o: ObjectData)
    ensures var r := ClassHeader(o);
      Get(r, "title") == Some(JString(o.name)) && Get(r, "type") == Some(JString("object"))
      && Get(r, "properties") == Some(JObject([]))
  {
  }

  lemma HeaderDescription(o: ObjectData)
    ensures Get(ClassHeader(o), "description") == if o.docstring != "" then Some(JString(o.docstring)) else None
  {
  }

  lemma HeaderTerm(o: ObjectData)
    ensures Get(ClassHeader(o), "term") == if o.term.Some? then Some(JString(o.term.value)) else None
  {
    var base := ClassBase(o);
    assert Get(base, "term").None?;
    assert Get(WithDescription(base, o.docstring), "term") == Get(base, "term");
  }

  lemma HeaderNothingElse(o: ObjectData)
    ensures forall k :: k != "title" && k != "type" && k != "properties" && k != "description" && k != "term" ==>
      Get(ClassHeader(o), k).None?
  {
  }

  /** `process_class` as a value: the schema of one object and the
   *  references its attributes make. The schema has no definitions of its
   *  own. */
  function ClassSchema(o: ObjectData, m: Model): (r: Result<(Json, seq<RefType>)>)
    ensures r.Ok? <==> AttributesFold(JObject([]), [], o.attributes, m).Ok?
    ensures r.Err? ==> r.panicked
    ensures r.Ok? ==> r.value.0.JObject?
    ensures r.Ok? ==> Get(r.value.0, "properties") == Some(AttributesFold(JObject([]), [], o.attributes, m).value.0)
    ensures r.Ok? ==> r.value.1 == AttributesFold(JObject([]), [], o.attributes, m).value.1
  {
    match AttributesFold(JObject([]), [], o.attributes, m)
    case Err(e, p) => Err(e, p)
    case Ok(acc) => Ok((SetKey(ClassHeader(o), "properties", acc.0), acc.1))
  }

  /** Apart from its properties the class schema is its header; in
   *  particular it holds no definitions, so the references of an object
   *  written as a definition go nowhere. */
  lemma ClassSchemaHeader(o: ObjectData, m: Model)
    requires ClassSchema(o, m).Ok?
    ensures forall k :: k != "properties" ==> Get(ClassSchema(o, m).value.0, k) == Get(ClassHeader(o), k)
    ensures Get(ClassSchema(o, m).value.0, DefinitionsKey).None?
  {
    ClassHeaderFields(o);
  }

  // ---------------------------------------------------------------------
  // What a class schema holds
  // ---------------------------------------------------------------------

  /** The non-primitive dtypes of the attributes, in order, repeats kept. */
  function References(attributes: seq<AttributeData>): seq<string>
    decreases |attributes|
  {
    if attributes == [] then []
    else References(attributes[..|attributes| - 1]) + PrimitivesAndRefs(attributes[|attributes| - 1].dtypes).1
  }

  /** A name is among the references exactly when it is a non-primitive
   *  dtype of some attribute. */
  lemma {:induction false} ReferencesMembers(attributes: seq<AttributeData>, d: string)
    ensures d in References(attributes) <==>
      !P.IsPrimitive(P.NewPrimitiveTypes(), d) && exists i :: 0 <= i < |attributes| && d in attributes[i].dtypes
    decreases |attributes|
  {
    if attributes != [] {
      ReferencesMembers(attributes[..|attributes| - 1], d);
      ReferencesSnoc(attributes, d);
      DtypeOfSomeSnoc(attributes, d);
    }
  }

  lemma ReferencesSnoc(attributes: seq<AttributeData>, d: string)
    requires attributes != []
    ensures var last := attributes[|attributes| - 1];
      d in References(attributes) <==>
        d in References(attributes[..|attributes| - 1]) || (d in last.dtypes && !P.IsPrimitive(P.NewPrimitiveTypes(), d))
  {
    var refs := PrimitivesAndRefs(attributes[|attributes| - 1].dtypes).1;
    assert References(attributes) == References(attributes[..|attributes| - 1]) + refs;
    SplitPartition(attributes[|attributes| - 1].dtypes);
  }

  lemma DtypeOfSomeSnoc(attributes: seq<AttributeData>, d: string)
    requires attributes != []
    ensures var init := attributes[..|attributes| - 1];
      (exists i :: 0 <= i < |attributes| && d in attributes[i].dtypes) <==>
        (exists i :: 0 <= i < |init| && d in init[i].dtypes) || d in attributes[|attributes| - 1].dtypes
  {
    var init := attributes[..|attributes| - 1];
    if exists i :: 0 <= i < |attributes| && d in attributes[i].dtypes {
      var i :| 0 <= i < |attributes| && d in attributes[i].dtypes;
      if i < |init| { assert init[i] == attributes[i]; }
    }
    if exists i :: 0 <= i < |init| && d in init[i].dtypes {
      var i :| 0 <= i < |init| && d in init[i].dtypes;
      assert init[i] == attributes[i];
    }
  }

  /** The references a list of dtypes makes. */
  function RefsOf(m: Model, dtypes: seq<string>): seq<RefType>
    decreases |dtypes|
  {
    if dtypes == [] then [] else RefsOf(m, dtypes[..|dtypes| - 1]) + [RefOf(m, dtypes[|dtypes| - 1])]
  }

  /** The references of an attribute panic exactly on the first name that
   *  is neither an enumeration nor an object. */
  lemma {:induction false} RefsFoldFails(properties: Json, refs: seq<RefType>, a: AttributeData, references: seq<string>, m: Model)
    requires Shaped(properties)
    ensures RefsFold(properties, refs, a, references, m).Err? <==> exists d :: d in references && !Known(m, d)
    decreases |references|
  {
    if references != [] {
      var init := references[..|references| - 1];
      var last := references[|references| - 1];
      RefsFoldFails(properties, refs, a, init, m);
      assert forall d :: d in references <==> d in init || d == last by {
        assert references == init + [last];
      }
    }
  }

  /** The references are recorded once each, in the order they are first
   *  met. */
  lemma {:induction false} RefsFoldCollects(properties: Json, seen: seq<RefType>, a: AttributeData, references: seq<string>, m: Model)
    requires Shaped(properties)
    requires RefsFold(properties, Seqs.Dedup(seen), a, references, m).Ok?
    ensures RefsFold(properties, Seqs.Dedup(seen), a, references, m).value.1 == Seqs.Dedup(seen + RefsOf(m, references))
    decreases |references|
  {
    if references == [] {
      assert seen + RefsOf(m, references) == seen;
    } else {
      var init := references[..|references| - 1];
      var last := references[|references| - 1];
      var acc := RefsFold(properties, Seqs.Dedup(seen), a, init, m);
      assert acc.Ok?;
      RefsFoldCollects(properties, seen, a, init, m);
      assert RefsOf(m, references) == RefsOf(m, init) + [RefOf(m, last)];
      Seqs.AppendAssoc(seen, RefsOf(m, init), [RefOf(m, last)]);
      Seqs.DedupSnoc(seen + RefsOf(m, init), RefOf(m, last));
    }
  }

  /** Processing an attribute only touches the property named after it,
   *  and it writes that property when the attribute has a dtype. */
  lemma AttributeStepTouches(properties: Json, refs: seq<RefType>, a: AttributeData, m: Model)
    requires Shaped(properties) && AttributeStep(properties, refs, a, m).Ok?
    ensures forall k :: k != a.name ==> Get(AttributeStep(properties, refs, a, m).value.0, k) == Get(properties, k)
    ensures a.dtypes != [] ==> Get(AttributeStep(properties, refs, a, m).value.0, a.name).Some?
    ensures a.dtypes == [] ==> AttributeStep(properties, refs, a, m).value.0 == properties
  {
    var split := PrimitivesAndRefs(a.dtypes);
    var p1 := PrimitivesFold(properties, a, split.0);
    LastPrimitiveWins(properties, a, split.0);
    RefsFoldTouches(p1, refs, a, split.1, m);
    if a.dtypes == [] {
      assert split.0 == [] && split.1 == [];
    } else if split.1 == [] {
      SplitPartition(a.dtypes);
      assert multiset(split.0) == multiset(a.dtypes);
      assert split.0 != [];
    }
  }

  lemma {:induction false} RefsFoldTouches(properties: Json, refs: seq<RefType>, a: AttributeData, references: seq<string>, m: Model)
    requires Shaped(properties) && RefsFold(properties, refs, a, references, m).Ok?
    ensures forall k :: k != a.name ==> Get(RefsFold(properties, refs, a, references, m).value.0, k) == Get(properties, k)
    ensures references != [] ==> Get(RefsFold(properties, refs, a, references, m).value.0, a.name).Some?
    decreases |references|
  {
    if references != [] {
      RefsFoldTouches(properties, refs, a, references[..|references| - 1], m);
    }
  }

  /** What an attribute's property ends up as: with only primitive dtypes,
   *  the property of the last one; with an enumeration as the last
   *  reference, the title and that reference alone. */
  lemma AttributeProperty(properties: Json, refs: seq<RefType>, a: AttributeData, m: Model)
    requires Shaped(properties) && AttributeStep(properties, refs, a, m).Ok?
    ensures var split := PrimitivesAndRefs(a.dtypes);
      split.1 == [] && split.0 != [] ==>
        Get(AttributeStep(properties, refs, a, m).value.0, a.name)
          == Some(PrimitiveProperty(a, split.0[|split.0| - 1]))
    ensures var split := PrimitivesAndRefs(a.dtypes);
      split.1 != [] && split.1[|split.1| - 1] in EnumNames(m.enums) ==>
        Get(AttributeStep(properties, refs, a, m).value.0, a.name)
          == Some(EnumRefProperty(a.name, split.1[|split.1| - 1]))
  {
    var split := PrimitivesAndRefs(a.dtypes);
    var primed := PrimitivesFold(properties, a, split.0);
    assert AttributeStep(properties, refs, a, m) == RefsFold(primed, refs, a, split.1, m);
    if split.1 == [] {
      LastPrimitiveWins(properties, a, split.0);
    } else if split.1[|split.1| - 1] in EnumNames(m.enums) {
      LastEnumWins(primed, refs, a, split.1, m);
    }
  }

  /** An enumeration as the last reference leaves its own property alone. */
  lemma LastEnumWins(properties: Json, refs: seq<RefType>, a: AttributeData, references: seq<string>, m: Model)
    requires Shaped(properties) && RefsFold(properties, refs, a, references, m).Ok?
    requires references != [] && references[|references| - 1] in EnumNames(m.enums)
    ensures Get(RefsFold(properties, refs, a, references, m).value.0, a.name)
      == Some(EnumRefProperty(a.name, references[|references| - 1]))
  {
    var acc := RefsFold(properties, refs, a, references[..|references| - 1], m);
    assert acc.Ok?;
    assert RefsFold(properties, refs, a, references, m)
      == ReferenceStep(acc.value.0, acc.value.1, a, references[|references| - 1], m);
  }

  lemma {:induction false} RefsOfAppend(m: Model, a: seq<string>, b: seq<string>)
    ensures RefsOf(m, a + b) == RefsOf(m, a) + RefsOf(m, b)
    decreases |b|
  {
    if b == [] {
      assert a + b == a;
    } else {
      var init := b[..|b| - 1];
      RefsOfAppend(m, a, init);
      assert (a + b)[..|a + b| - 1] == a + init;
    }
  }

  /** Every recorded reference is the one its name calls for. */
  lemma {:induction false} RefsOfNamed(m: Model, dtypes: seq<string>)
    ensures forall x :: x in RefsOf(m, dtypes) ==> x == RefOf(m, x.name) && x.name in dtypes
    decreases |dtypes|
  {
    if dtypes != [] {
      RefsOfNamed(m, dtypes[..|dtypes| - 1]);
    }
  }

  /** Each name of `dtypes` has its reference recorded. */
  lemma {:induction false} RefsOfCovers(m: Model, dtypes: seq<string>)
    ensures forall d :: d in dtypes ==> RefOf(m, d) in RefsOf(m, dtypes)
    decreases |dtypes|
  {
    if dtypes != [] {
      var init := dtypes[..|dtypes| - 1];
      RefsOfCovers(m, init);
      assert forall d :: d in dtypes ==> d in init || d == dtypes[|dtypes| - 1] by {
        assert dtypes == init + [dtypes[|dtypes| - 1]];
      }
    }
  }

  /** An attribute with a dtype that names nothing makes the fold panic. */
  lemma {:induction false} AttributesFoldFails(properties: Json, refs: seq<RefType>, attributes: seq<AttributeData>, m: Model)
    requires Shaped(properties)
    ensures AttributesFold(properties, refs, attributes, m).Err? <==>
      exists d :: d in References(attributes) && !Known(m, d)
    decreases |attributes|
  {
    if attributes != [] {
      var init := attributes[..|attributes| - 1];
      var last := attributes[|attributes| - 1];
      AttributesFoldFails(properties, refs, init, m);
      var acc := AttributesFold(properties, refs, init, m);
      var split := PrimitivesAndRefs(last.dtypes);
      if acc.Ok? {
        RefsFoldFails(PrimitivesFold(acc.value.0, last, split.0), acc.value.1, last, split.1, m);
      }
    }
  }

  lemma {:induction false} AttributesFoldCollects(properties: Json, seen: seq<RefType>, attributes: seq<AttributeData>, m: Model)
    requires Shaped(properties)
    requires AttributesFold(properties, Seqs.Dedup(seen), attributes, m).Ok?
    ensures AttributesFold(properties, Seqs.Dedup(seen), attributes, m).value.1
      == Seqs.Dedup(seen + RefsOf(m, References(attributes)))
    decreases |attributes|
  {
    if attributes == [] {
      assert seen + RefsOf(m, References(attributes)) == seen;
    } else {
      var init := attributes[..|attributes| - 1];
      var last := attributes[|attributes| - 1];
      var acc := AttributesFold(properties, Seqs.Dedup(seen), init, m);
      assert acc.Ok?;
      AttributesFoldCollects(properties, seen, init, m);
      var split := PrimitivesAndRefs(last.dtypes);
      var seen' := seen + RefsOf(m, References(init));
      RefsFoldCollects(PrimitivesFold(acc.value.0, last, split.0), seen', last, split.1, m);
      RefsOfAppend(m, References(init), split.1);
      Seqs.AppendAssoc(seen, RefsOf(m, References(init)), RefsOf(m, split.1));
    }
  }

  /** Some attribute with this name has a dtype. */
  ghost predicate NamedWithDtype(attributes: seq<AttributeData>, k: string)
  {
    exists i :: 0 <= i < |attributes| && attributes[i].name == k && attributes[i].dtypes != []
  }

  lemma {:induction false} AttributesFoldKeys(properties: Json, refs: seq<RefType>, attributes: seq<AttributeData>, m: Model)
    requires Shaped(properties) && AttributesFold(properties, refs, attributes, m).Ok?
    ensures forall k :: Get(AttributesFold(properties, refs, attributes, m).value.0, k).Some? <==>
      Get(properties, k).Some? || NamedWithDtype(attributes, k)
    decreases |attributes|
  {
    if attributes != [] {
      var init := attributes[..|attributes| - 1];
      var last := attributes[|attributes| - 1];
      var acc := AttributesFold(properties, refs, init, m);
      assert acc.Ok?;
      AttributesFoldKeys(properties, refs, init, m);
      AttributeStepTouches(acc.value.0, acc.value.1, last, m);
      NamedWithDtypeSnoc(attributes);
    }
  }

  lemma NamedWithDtypeSnoc(attributes: seq<AttributeData>)
    requires attributes != []
    ensures forall k :: NamedWithDtype(attributes, k) <==>
      NamedWithDtype(attributes[..|attributes| - 1], k) ||
      (k == attributes[|attributes| - 1].name && attributes[|attributes| - 1].dtypes != [])
  {
    var init := attributes[..|attributes| - 1];
    forall k | NamedWithDtype(init, k) ensures NamedWithDtype(attributes, k) {
      var i :| 0 <= i < |init| && init[i].name == k && init[i].dtypes != [];
      assert attributes[i] == init[i];
    }
    forall k | NamedWithDtype(attributes, k) && !NamedWithDtype(init, k)
      ensures k == attributes[|attributes| - 1].name && attributes[|attributes| - 1].dtypes != []
    {
      var i :| 0 <= i < |attributes| && attributes[i].name == k && attributes[i].dtypes != [];
    }
  }

  /** `process_class`: it panics exactly when some attribute has a
   *  non-primitive dtype naming neither an enumeration nor an object;
   *  otherwise the attributes with a dtype, and only they, have a
   *  property, and the references are those dtypes, each recorded once. */
  lemma ClassSchemaContents(o: ObjectData, m: Model)
    ensures ClassSchema(o, m).Err? <==> exists d :: d in References(o.attributes) && !Known(m, d)
    ensures ClassSchema(o, m).Ok? ==>
      ClassSchema(o, m).value.1 == Seqs.Dedup(RefsOf(m, References(o.attributes)))
    ensures ClassSchema(o, m).Ok? ==> forall k ::
      Get(At(ClassSchema(o, m).value.0, "properties"), k).Some? <==> NamedWithDtype(o.attributes, k)
  {
    AttributesFoldFails(JObject([]), [], o.attributes, m);
    if ClassSchema(o, m).Ok? {
      assert Seqs.Dedup<RefType>([]) == [];
      AttributesFoldCollects(JObject([]), [], o.attributes, m);
      assert [] + RefsOf(m, References(o.attributes)) == RefsOf(m, References(o.attributes));
      AttributesFoldKeys(JObject([]), [], o.attributes, m);
    }
  }

  /** Once a reference fails, the later ones are not looked at. */
  lemma {:induction false} RefsFoldStops(properties: Json, refs: seq<RefType>, a: AttributeData, references: seq<string>, m: Model, j: nat)
    requires Shaped(properties) && j <= |references|
    requires RefsFold(properties, refs, a, references[..j], m).Err?
    ensures RefsFold(properties, refs, a, references, m) == RefsFold(properties, refs, a, references[..j], m)
    decreases |references| - j
  {
    if j == |references| {
      assert references[..j] == references;
    } else {
      var init := references[..|references| - 1];
      assert init[..j] == references[..j];
      RefsFoldStops(properties, refs, a, init, m, j);
    }
  }

  /** Once an attribute fails, the later ones are not looked at. */
  lemma {:induction false} AttributesFoldStops(properties: Json, refs: seq<RefType>, attributes: seq<AttributeData>, m: Model, i: nat)
    requires Shaped(properties) && i <= |attributes|
    requires AttributesFold(properties, refs, attributes[..i], m).Err?
    ensures AttributesFold(properties, refs, attributes, m) == AttributesFold(properties, refs, attributes[..i], m)
    decreases |attributes| - i
  {
    if i == |attributes| {
      assert attributes[..i] == attributes;
    } else {
      var init := attributes[..|attributes| - 1];
      assert init[..i] == attributes[..i];
      AttributesFoldStops(properties, refs, init, m, i);
    }
  }

  /** One more primitive, after the earlier ones. */
  lemma PrimitivesFoldNext(properties: Json, a: AttributeData, primitives: seq<string>, j: nat)
    requires Shaped(properties) && j < |primitives|
    requires forall i :: 0 <= i < |primitives| ==> P.IsPrimitive(P.NewPrimitiveTypes(), primitives[i])
    ensures Shaped(PrimitivesFold(properties, a, primitives[..j]))
    ensures P.IsPrimitive(P.NewPrimitiveTypes(), primitives[j])
    ensures PrimitivesFold(properties, a, primitives[..j + 1])
      == SetKey(PrimitivesFold(properties, a, primitives[..j]), a.name, PrimitiveProperty(a, primitives[j]))
  {
    assert primitives[..j + 1][..j] == primitives[..j];
  }

  /** One more reference, after the earlier ones went through. */
  lemma RefsFoldNext(properties: Json, refs: seq<RefType>, a: AttributeData, references: seq<string>, m: Model, j: nat,
                     current: Json, found: seq<RefType>)
    requires Shaped(properties) && j < |references|
    requires RefsFold(properties, refs, a, references[..j], m) == Ok((current, found))
    ensures Shaped(current)
    ensures RefsFold(properties, refs, a, references[..j + 1], m) == ReferenceStep(current, found, a, references[j], m)
  {
    assert references[..j + 1][..j] == references[..j];
  }

  /** One more attribute, after the earlier ones went through. */
  lemma AttributesFoldNext(properties: Json, refs: seq<RefType>, attributes: seq<AttributeData>, m: Model, i: nat,
                           current: Json, found: seq<RefType>)
    requires Shaped(properties) && i < |attributes|
    requires AttributesFold(properties, refs, attributes[..i], m) == Ok((current, found))
    ensures Shaped(current)
    ensures AttributesFold(properties, refs, attributes[..i + 1], m) == AttributeStep(current, found, attributes[i], m)
  {
    assert attributes[..i + 1][..i] == attributes[..i];
  }

  // ---------------------------------------------------------------------
  // The operations as the source runs them
  // ---------------------------------------------------------------------

  /** `process_primitive`, `set_primitive_dtype` and `set_options`, step by
   *  step on the property. */
  method ProcessPrimitive(properties: Json, a: AttributeData, primitive: string) returns (r: Json)
    requires properties.JObject? || properties.JNull?
    requires P.IsPrimitive(P.NewPrimitiveTypes(), primitive)
    ensures r == SetKey(properties, a.name, PrimitiveProperty(a, primitive))
  {
    var property := NewProperty(a.name);
    if a.docstring != "" {
      property := SetKey(property, "description", JString(a.docstring));
    }
    if a.term.Some? {
      property := SetKey(property, "term", JString(a.term.value));
    }
    if a.isArray {
      property := SetKey(property, "type", JString("array"));
      property := SetKey(property, "items", JObject([("type", JString(JsonType(primitive)))]));
    } else {
      property := SetKey(property, "type", JString(JsonType(primitive)));
    }
    property := SetOptions(property, a.options);
    r := SetKey(properties, a.name, property);
  }

  /** `process_reference`, `set_ref_dtype` and `set_options`, writing into
   *  the property already stored under the attribute's name. */
  method ProcessReference(properties: Json, a: AttributeData, reference: string) returns (r: Json)
    requires Shaped(properties)
    ensures r == SetKey(properties, a.name, RefProperty(At(properties, a.name), a, reference))
  {
    var property := At(properties, a.name);
    if a.term.Some? {
      property := SetKey(property, "term", JString(a.term.value));
    }
    if a.isArray {
      property := SetKey(property, "type", JString("array"));
      property := SetKey(property, "items", JObject([("$ref", JString(DefPath(reference)))]));
    } else {
      property := SetKey(property, "$ref", JString(DefPath(reference)));
    }
    property := SetOptions(property, a.options);
    r := SetKey(properties, a.name, property);
  }

  /** The `for primitive in primitives` loop of `process_class`. */
  method ProcessPrimitives(properties: Json, a: AttributeData, primitives: seq<string>) returns (r: Json)
    requires Shaped(properties)
    requires forall i :: 0 <= i < |primitives| ==> P.IsPrimitive(P.NewPrimitiveTypes(), primitives[i])
    ensures r == PrimitivesFold(properties, a, primitives)
  {
    r := properties;
    for j := 0 to |primitives|
      invariant r == PrimitivesFold(properties, a, primitives[..j])
    {
      PrimitivesFoldNext(properties, a, primitives, j);
      r := ProcessPrimitive(r, a, primitives[j]);
    }
    assert primitives[..|primitives|] == primitives;
  }

  /** The `for reference in references` loop of `process_class`: an
   *  enumeration, an object, or a panic. */
  method ProcessReferences(properties: Json, refs: seq<RefType>, a: AttributeData, references: seq<string>, m: Model)
    returns (r: Result<(Json, seq<RefType>)>)
    requires Shaped(properties)
    ensures r == RefsFold(properties, refs, a, references, m)
  {
    var current := properties;
    var found := refs;
    for j := 0 to |references|
      invariant RefsFold(properties, refs, a, references[..j], m) == Ok((current, found))
    {
      RefsFoldNext(properties, refs, a, references, m, j, current, found);
      var reference := references[j];
      if reference in EnumNames(m.enums) {
        found := InsertRef(found, EnumRef(reference));
        current := SetKey(current, a.name, EnumRefProperty(a.name, reference));
      } else if reference in ObjectNames(m.objects) {
        found := InsertRef(found, ObjectRef(reference));
        current := ProcessReference(current, a, reference);
      } else {
        r := Panic(NotFoundPanic(reference));
        RefsFoldStops(properties, refs, a, references, m, j + 1);
        return;
      }
    }
    assert references[..|references|] == references;
    r := Ok((current, found));
  }

  /** The body of `process_class`'s loop for one attribute: its primitives,
   *  then its references. */
  method ProcessAttribute(properties: Json, refs: seq<RefType>, a: AttributeData, m: Model)
    returns (r: Result<(Json, seq<RefType>)>)
    requires Shaped(properties)
    ensures r == AttributeStep(properties, refs, a, m)
  {
    var primitives := P.FilterPrimitive(P.NewPrimitiveTypes(), a.dtypes);
    var references := P.FilterNonPrimitives(P.NewPrimitiveTypes(), a.dtypes);
    var current := ProcessPrimitives(properties, a, primitives);
    r := ProcessReferences(current, refs, a, references, m);
  }

  /** The schema `process_class` starts from, before its attributes. */
  method NewClassSchema(o: ObjectData) returns (schema: Json)
    ensures schema == ClassHeader(o)
  {
    schema := ClassBase(o);
    if o.docstring != "" {
      schema := SetKey(schema, "description", JString(o.docstring));
    }
    if o.term.Some? {
      schema := SetKey(schema, "term", JString(o.term.value));
    }
  }

  /** The `for attribute in &object.attributes` loop of `process_class`. */
  method ProcessAttributes(attributes: seq<AttributeData>, m: Model) returns (r: Result<(Json, seq<RefType>)>)
    ensures r == AttributesFold(JObject([]), [], attributes, m)
  {
    var properties := JObject([]);
    var refs: seq<RefType> := [];
    for i := 0 to |attributes|
      invariant AttributesFold(JObject([]), [], attributes[..i], m) == Ok((properties, refs))
    {
      AttributesFoldNext(JObject([]), [], attributes, m, i, properties, refs);
      var step := ProcessAttribute(properties, refs, attributes[i], m);
      if step.Err? {
        r := step;
        AttributesFoldStops(JObject([]), [], attributes, m, i + 1);
        return;
      }
      properties, refs := step.value.0, step.value.1;
    }
    assert attributes[..|attributes|] == attributes;
    r := Ok((properties, refs));
  }

  /** `process_class`: the header, then each attribute's primitives and
   *  references, collecting the references into a set. */
  method ProcessClass(o: ObjectData, m: Model) returns (r: Result<(Json, seq<RefType>)>)
    ensures r == ClassSchema(o, m)
  {
    var schema := NewClassSchema(o);
    var fold := ProcessAttributes(o.attributes, m);
    if fold.Err? {
      return fold;
    }
    r := Ok((SetKey(schema, "properties", fold.value.0), fold.value.1));
  }

  // ---------------------------------------------------------------------
  // The whole schema
  // ---------------------------------------------------------------------

  /** `process_enum`: the title, the type "string" and the enumeration's
   *  values, in key order. */
  function EnumSchema(e: EnumData): (r: Json)
    ensures r.JObject?
    ensures Get(r, "title") == Some(JString(e.name)) && Get(r, "type") == Some(JString("string"))
    ensures Get(r, "enum").Some? && Get(r, "enum").value.JArray?
    ensures var items := Get(r, "enum").value.items;
      |items| == |e.mappings| && forall i :: 0 <= i < |e.mappings| ==> items[i] == JString(e.mappings[i].1)
    ensures forall k :: k != "title" && k != "type" && k != "enum" ==> Get(r, k).None?
  {
    var values := OrderedMaps.Values(e.mappings);
    var items := seq(|values|, i requires 0 <= i < |values| => JString(values[i]));
    SetKey(SetKey(NewProperty(e.name), "type", JString("string")), "enum", JArray(items))
  }

  /** The definition `to_json_schema` writes for one reference: the class
   *  schema of the object, its references dropped, or the enumeration's
   *  schema; a name with no object or enumeration panics at `unwrap`. */
  function Definition(m: Model, x: RefType): (r: Result<Json>)
    ensures r.Err? ==> r.panicked
    ensures x.ObjectRef? && x.name !in ObjectNames(m.objects) ==> r == Panic(NoneUnwrapPanic)
    ensures x.EnumRef? && x.name !in EnumNames(m.enums) ==> r == Panic(NoneUnwrapPanic)
    ensures x.EnumRef? && x.name in EnumNames(m.enums) ==> r == Ok(EnumSchema(FindEnum(m.enums, x.name).value))
    ensures x.ObjectRef? && x.name in ObjectNames(m.objects) ==>
      var c := ClassSchema(FindObject(m.objects, x.name).value, m);
      (r.Ok? <==> c.Ok?) && (r.Ok? ==> r.value == c.value.0)
  {
    match x
    case ObjectRef(name) =>
      (match FindObject(m.objects, name)
       case None => Panic(NoneUnwrapPanic)
       case Some(sub) =>
         match ClassSchema(sub, m)
         case Err(e, p) => Err(e, p)
         case Ok(c) => Ok(c.0))
    case EnumRef(name) =>
      match FindEnum(m.enums, name)
      case None => Panic(NoneUnwrapPanic)
      case Some(e) => Ok(EnumSchema(e))
  }

  /** The schema is an object whose definitions, if any, are an object. */
  predicate DefsShaped(schema: Json)
  {
    schema.JObject? && (Get(schema, DefinitionsKey).Some? ==> Get(schema, DefinitionsKey).value.JObject?)
  }

  /** `schema[DEFINITIONS_KEY][name] = definition`. */
  function WithDefinition(schema: Json, name: string, definition: Json): (r: Json)
    requires DefsShaped(schema)
    ensures DefsShaped(r)
    ensures Get(r, DefinitionsKey) == Some(SetKey(At(schema, DefinitionsKey), name, definition))
    ensures forall k :: k != DefinitionsKey ==> Get(r, k) == Get(schema, k)
  {
    SetKey(schema, DefinitionsKey, SetKey(At(schema, DefinitionsKey), name, definition))
  }

  /** The loop over the references of `to_json_schema`, stopping at the
   *  first panic. */
  function AddDefinitions(schema: Json, m: Model, refs: seq<RefType>): (r: Result<Json>)
    requires DefsShaped(schema)
    ensures r.Ok? ==> DefsShaped(r.value)
    ensures r.Err? ==> r.panicked
    decreases |refs|
  {
    if refs == [] then Ok(schema)
    else
      match AddDefinitions(schema, m, refs[..|refs| - 1])
      case Err(e, p) => Err(e, p)
      case Ok(s) =>
        match Definition(m, refs[|refs| - 1])
        case Err(e, p) => Err(e, p)
        case Ok(d) => Ok(WithDefinition(s, refs[|refs| - 1].name, d))
  }

  /** `to_json_schema` before printing: the root object's class schema, a
   *  definition per reference it makes, and the draft-07 "$schema" key in
   *  front. The root must exist. */
  function DraftSchemaOf(name: string, m: Model): (r: Result<Json>)
    ensures name !in ObjectNames(m.objects) ==> r == Panic(NoneUnwrapPanic)
    ensures r.Err? ==> r.panicked
    ensures r.Ok? ==> r.value.JObject? && Get(r.value, "$schema") == Some(JString(SchemaVersion))
  {
    match FindObject(m.objects, name)
    case None => Panic(NoneUnwrapPanic)
    case Some(root) =>
      match ClassSchema(root, m)
      case Err(e, p) => Err(e, p)
      case Ok(c) =>
        ClassSchemaShaped(root, m);
        match AddDefinitions(c.0, m, c.1)
        case Err(e, p) => Err(e, p)
        case Ok(s) =>
          SchemaKeyFirst(s.fields);
          Ok(JObject([("$schema", JString(SchemaVersion))] + s.fields))
  }

  /** A class schema has no definitions yet, so definitions can be added. */
  lemma ClassSchemaShaped(o: ObjectData, m: Model)
    requires ClassSchema(o, m).Ok?
    ensures DefsShaped(ClassSchema(o, m).value.0)
  {
    ClassSchemaHeader(o, m);
  }

  /** The "$schema" entry put in front is what a lookup of that key finds. */
  lemma SchemaKeyFirst(fields: seq<(string, Json)>)
    ensures Get(JObject([("$schema", JString(SchemaVersion))] + fields), "$schema") == Some(JString(SchemaVersion))
  {
    FieldCons(("$schema", JString(SchemaVersion)), fields);
  }

  /** The definitions stop at the first reference whose definition panics. */
  lemma {:induction false} AddDefinitionsFails(schema: Json, m: Model, refs: seq<RefType>)
    requires DefsShaped(schema)
    ensures AddDefinitions(schema, m, refs).Err? <==> exists x :: x in refs && Definition(m, x).Err?
    decreases |refs|
  {
    if refs != [] {
      var init := refs[..|refs| - 1];
      AddDefinitionsFails(schema, m, init);
      assert refs == init + [refs[|refs| - 1]];
    }
  }

  /** Every reference is the one its name calls for. */
  predicate NameDetermined(m: Model, refs: seq<RefType>)
  {
    forall x :: x in refs ==> x == RefOf(m, x.name)
  }

  /** Written into a schema without definitions, the references' definitions
   *  sit under their names, one per reference; nothing else changes, and
   *  there is no "definitions" key when there is no reference. */
  lemma {:induction false} AddDefinitionsContents(schema: Json, m: Model, refs: seq<RefType>)
    requires DefsShaped(schema) && Get(schema, DefinitionsKey).None?
    requires Seqs.Distinct(refs) && NameDetermined(m, refs)
    requires AddDefinitions(schema, m, refs).Ok?
    ensures var r := AddDefinitions(schema, m, refs).value;
      (forall k :: k != DefinitionsKey ==> Get(r, k) == Get(schema, k))
      && (Get(r, DefinitionsKey).Some? <==> refs != [])
      && (forall k :: Get(At(r, DefinitionsKey), k).Some? <==> RefOf(m, k) in refs)
    ensures forall x :: x in refs ==>
      Definition(m, x).Ok? && Get(At(AddDefinitions(schema, m, refs).value, DefinitionsKey), x.name) == Some(Definition(m, x).value)
    decreases |refs|
  {
    if refs != [] {
      var init := refs[..|refs| - 1];
      var last := refs[|refs| - 1];
      assert refs == init + [last];
      Seqs.DistinctSnoc(init, last);
      assert NameDetermined(m, init);
      assert AddDefinitions(schema, m, init).Ok?;
      AddDefinitionsContents(schema, m, init);
      var s := AddDefinitions(schema, m, init).value;
      var d := Definition(m, last).value;
      var defs := At(s, DefinitionsKey);
      assert At(AddDefinitions(schema, m, refs).value, DefinitionsKey) == SetKey(defs, last.name, d);
      forall k ensures RefOf(m, k) in refs <==> RefOf(m, k) in init || k == last.name {
        if RefOf(m, k) == last {
          assert k == last.name;
        }
      }
      forall x | x in init ensures x.name != last.name {
        assert x == RefOf(m, x.name);
      }
    }
  }

  /** The references of the root's class schema, as `to_json_schema` walks
   *  them: named by their own names, each once, one per referenced name. */
  lemma RootRefs(m: Model, dtypes: seq<string>)
    ensures Seqs.Distinct(Seqs.Dedup(RefsOf(m, dtypes)))
    ensures NameDetermined(m, Seqs.Dedup(RefsOf(m, dtypes)))
    ensures forall k :: RefOf(m, k) in Seqs.Dedup(RefsOf(m, dtypes)) <==> k in dtypes
    ensures Seqs.Dedup(RefsOf(m, dtypes)) != [] <==> dtypes != []
  {
    RefsOfNamed(m, dtypes);
    RefsOfCovers(m, dtypes);
    if dtypes != [] {
      assert RefOf(m, dtypes[0]) in Seqs.Dedup(RefsOf(m, dtypes));
    }
  }

  /** Putting "$schema" in front hides no other key. */
  lemma SchemaInFront(s: Json)
    requires s.JObject?
    ensures forall k :: k != "$schema" ==> Get(JObject([("$schema", JString(SchemaVersion))] + s.fields), k) == Get(s, k)
  {
    FieldCons(("$schema", JString(SchemaVersion)), s.fields);
  }

  /** `to_json_schema` panics exactly when the root object is missing, when
   *  one of its attributes names an unknown type, or when the definition
   *  of one of its references panics. */
  lemma DraftSchemaFails(name: string, m: Model)
    ensures DraftSchemaOf(name, m).Err? <==>
      name !in ObjectNames(m.objects)
      || (exists d :: d in References(FindObject(m.objects, name).value.attributes) && !Known(m, d))
      || (exists d :: d in References(FindObject(m.objects, name).value.attributes) && Definition(m, RefOf(m, d)).Err?)
  {
    if name in ObjectNames(m.objects) {
      var root := FindObject(m.objects, name).value;
      var refsSeen := References(root.attributes);
      ClassSchemaContents(root, m);
      var c := ClassSchema(root, m);
      if c.Ok? {
        ClassSchemaHeader(root, m);
        RootRefs(m, refsSeen);
        AddDefinitionsFails(c.value.0, m, c.value.1);
        forall d | d in refsSeen && Definition(m, RefOf(m, d)).Err?
          ensures exists x :: x in c.value.1 && Definition(m, x).Err?
        {
          assert RefOf(m, d) in c.value.1;
        }
        forall x | x in c.value.1 && Definition(m, x).Err?
          ensures exists d :: d in refsSeen && Definition(m, RefOf(m, d)).Err?
        {
          assert RefOf(m, x.name) in c.value.1;
        }
      }
    }
  }

  /** What a successful `to_json_schema` holds: the draft-07 "$schema", the
   *  root object's class schema, and under "definitions" exactly the types
   *  the root's attributes reference, each with its definition. The
   *  references of the objects so defined add nothing. */
  lemma DraftSchemaContents(name: string, m: Model)
    requires DraftSchemaOf(name, m).Ok?
    ensures name in ObjectNames(m.objects)
    ensures ClassSchema(FindObject(m.objects, name).value, m).Ok?
    ensures forall k :: k != "$schema" && k != DefinitionsKey ==>
      Get(DraftSchemaOf(name, m).value, k) == Get(ClassSchema(FindObject(m.objects, name).value, m).value.0, k)
    ensures Get(DraftSchemaOf(name, m).value, DefinitionsKey).Some? <==>
      References(FindObject(m.objects, name).value.attributes) != []
    ensures forall k :: Get(At(DraftSchemaOf(name, m).value, DefinitionsKey), k).Some? <==>
      k in References(FindObject(m.objects, name).value.attributes)
    ensures forall k :: k in References(FindObject(m.objects, name).value.attributes) ==>
      Definition(m, RefOf(m, k)).Ok?
      && Get(At(DraftSchemaOf(name, m).value, DefinitionsKey), k) == Some(Definition(m, RefOf(m, k)).value)
  {
    var root := FindObject(m.objects, name).value;
    var c := ClassSchema(root, m).value;
    ClassSchemaContents(root, m);
    ClassSchemaHeader(root, m);
    RootRefs(m, References(root.attributes));
    AddDefinitionsContents(c.0, m, c.1);
    var s := AddDefinitions(c.0, m, c.1).value;
    SchemaInFront(s);
    forall k | k in References(root.attributes)
      ensures Definition(m, RefOf(m, k)).Ok?
      ensures Get(At(s, DefinitionsKey), k) == Some(Definition(m, RefOf(m, k)).value)
    {
      assert RefOf(m, k) in c.1;
    }
  }

  /** One more definition, after the earlier ones went through. */
  lemma AddDefinitionsNext(schema: Json, m: Model, refs: seq<RefType>, i: nat, current: Json)
    requires DefsShaped(schema) && i < |refs|
    requires AddDefinitions(schema, m, refs[..i]) == Ok(current)
    ensures DefsShaped(current)
    ensures AddDefinitions(schema, m, refs[..i + 1]) ==
      match Definition(m, refs[i])
      case Err(e, p) => Err(e, p)
      case Ok(d) => Ok(WithDefinition(current, refs[i].name, d))
  {
    assert refs[..i + 1][..i] == refs[..i];
  }

  /** Once a definition panics, the later references are not looked at. */
  lemma {:induction false} AddDefinitionsStops(schema: Json, m: Model, refs: seq<RefType>, i: nat)
    requires DefsShaped(schema) && i <= |refs|
    requires AddDefinitions(schema, m, refs[..i]).Err?
    ensures AddDefinitions(schema, m, refs) == AddDefinitions(schema, m, refs[..i])
    decreases |refs| - i
  {
    if i == |refs| {
      assert refs[..i] == refs;
    } else {
      var init := refs[..|refs| - 1];
      assert init[..i] == refs[..i];
      AddDefinitionsStops(schema, m, init, i);
    }
  }

  /** The body of the loop of `to_json_schema` for one reference: the
   *  object's class schema or the enumeration's schema. */
  method DefinitionOf(m: Model, x: RefType) returns (r: Result<Json>)
    ensures r == Definition(m, x)
  {
    match x
    case ObjectRef(name) =>
      var sub := FindObject(m.objects, name);
      if sub.None? {
        return Panic(NoneUnwrapPanic);
      }
      var c := ProcessClass(sub.value, m);
      if c.Err? {
        return Err(c.error, c.panicked);
      }
      r := Ok(c.value.0);
    case EnumRef(name) =>
      var e := FindEnum(m.enums, name);
      if e.None? {
        return Panic(NoneUnwrapPanic);
      }
      r := Ok(EnumSchema(e.value));
  }

  /** The loop of `to_json_schema` over the references. */
  method WriteDefinitions(schema: Json, m: Model, refs: seq<RefType>) returns (r: Result<Json>)
    requires DefsShaped(schema)
    ensures r == AddDefinitions(schema, m, refs)
  {
    var current := schema;
    for i := 0 to |refs|
      invariant AddDefinitions(schema, m, refs[..i]) == Ok(current)
    {
      AddDefinitionsNext(schema, m, refs, i, current);
      var definition := DefinitionOf(m, refs[i]);
      if definition.Err? {
        r := Err(definition.error, definition.panicked);
        AddDefinitionsStops(schema, m, refs, i + 1);
        return;
      }
      current := WithDefinition(current, refs[i].name, definition.value);
    }
    assert refs[..|refs|] == refs;
    r := Ok(current);
  }

  /** `to_json_schema`, up to printing the result. */
  method ToJsonSchema(name: string, m: Model) returns (r: Result<Json>)
    ensures r == DraftSchemaOf(name, m)
  {
    var root := FindObject(m.objects, name);
    if root.None? {
      return Panic(NoneUnwrapPanic);
    }
    var c := ProcessClass(root.value, m);
    if c.Err? {
      return Err(c.error, c.panicked);
    }
    ClassSchemaHeader(root.value, m);
    var schema := WriteDefinitions(c.value.0, m, c.value.1);
    if schema.Err? {
      return schema;
    }
    r := Ok(JObject([("$schema", JString(SchemaVersion))] + schema.value.fields));
  }
}
