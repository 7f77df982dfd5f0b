/** What the template exporters do to a data model before rendering it: the
 *  template names, the dtype renaming tables, dropping objects without
 *  terms and putting required attributes first; and the clean-up of the
 *  rendered text. */
module Exporters {
  import opened Wrappers
  import opened Seqs
  import Text
  import opened Attributes
  import opened Objects
  import opened Models
  import opened DataModels

  // ---------------------------------------------------------------------
  // Template names

  /** `Templates`. */
  datatype Template =
    | XmlSchema | Markdown | CompactMarkdown | Shacl | JsonSchema | JsonSchemaAll
    | Shex | PythonDataclass | PythonPydanticXml | PythonPydantic | MkDocs
    | Internal | Typescript

  /** `Display for Templates`. */
  function Display(t: Template): string
  {
    match t
    case PythonDataclass => "python-dataclass"
    case PythonPydantic => "python-pydantic"
    case PythonPydanticXml => "python-pydantic-xml"
    case XmlSchema => "xml-schema"
    case Markdown => "markdown"
    case CompactMarkdown => "compact-markdown"
    case Shacl => "shacl"
    case JsonSchema => "json-schema"
    case JsonSchemaAll => "json-schema-all"
    case Shex => "shex"
    case MkDocs => "mk-docs"
    case Internal => "internal"
    case Typescript => "typescript"
  }

  /** The thirteen names `FromStr for Templates` accepts. */
  const TemplateNames: seq<string> := [
    "python-dataclass", "python-sdrdm", "python-pydantic", "xml-schema",
    "markdown", "compact-markdown", "shacl", "json-schema", "json-schema-all",
    "shex", "mk-docs", "internal", "typescript"]

  /** `FromStr for Templates`: one of the thirteen names, or an error that
   *  quotes the rejected string. */
  function FromStr(s: string): (r: Result<Template>)
    ensures r.Ok? <==> s in TemplateNames
    ensures r.Err? ==> r == Err("Invalid template type: " + s)
  {
    if s == "python-dataclass" then Ok(PythonDataclass)
    else if s == "python-sdrdm" then Ok(PythonPydanticXml)
    else if s == "python-pydantic" then Ok(PythonPydantic)
    else if s == "xml-schema" then Ok(XmlSchema)
    else if s == "markdown" then Ok(Markdown)
    else if s == "compact-markdown" then Ok(CompactMarkdown)
    else if s == "shacl" then Ok(Shacl)
    else if s == "json-schema" then Ok(JsonSchema)
    else if s == "json-schema-all" then Ok(JsonSchemaAll)
    else if s == "shex" then Ok(Shex)
    else if s == "mk-docs" then Ok(MkDocs)
    else if s == "internal" then Ok(Internal)
    else if s == "typescript" then Ok(Typescript)
    else Err("Invalid template type: " + s)
  }

  /** Every template but `PythonPydanticXml` is read back from the name it
   *  displays. That one displays as "python-pydantic-xml", which is
   *  rejected, and is read from "python-sdrdm" instead. */
  lemma DisplayRoundTrip(t: Template)
    ensures t != PythonPydanticXml ==> FromStr(Display(t)) == Ok(t)
    ensures t == PythonPydanticXml ==> FromStr(Display(t)).Err? && FromStr("python-sdrdm") == Ok(t)
  {
  }

  /** An accepted name is the display name of the template it yields,
   *  except "python-sdrdm". */
  lemma FromStrNames(s: string)
    requires FromStr(s).Ok?
    ensures FromStr(s).value == PythonPydanticXml <==> s == "python-sdrdm"
    ensures FromStr(s).value != PythonPydanticXml ==> s == Display(FromStr(s).value)
  {
    FromStrSource(s);
    SdrdmAlias();
  }

  /** The name a template was read from, taken name by name. */
  lemma FromStrSource(s: string)
    requires FromStr(s).Ok?
    ensures var t := FromStr(s).value;
      s == if t == PythonPydanticXml then "python-sdrdm" else Display(t)
  {
    if s == "python-dataclass" {
    } else if s == "python-sdrdm" {
    } else if s == "python-pydantic" {
    } else if s == "xml-schema" {
    } else if s == "markdown" {
    } else if s == "compact-markdown" {
    } else if s == "shacl" {
    } else if s == "json-schema" {
    } else if s == "json-schema-all" {
    } else if s == "shex" {
    } else if s == "mk-docs" {
    } else if s == "internal" {
    }
  }

  lemma SdrdmAlias()
    ensures FromStr("python-sdrdm") == Ok(PythonPydanticXml)
  {
  }

  /** No two accepted names yield the same template. */
  lemma FromStrInjective(s: string, s': string)
    requires FromStr(s).Ok? && FromStr(s') == FromStr(s)
    ensures s == s'
  {
    FromStrNames(s);
    FromStrNames(s');
  }

  // ---------------------------------------------------------------------
  // Dtype renaming

  /** A renaming table, a `HashMap<String, String>` with distinct keys. */
  type TypeMap = StringMap

  /** `PYTHON_TYPE_MAPS`. */
  const PythonTypes: TypeMap :=
    [("string", "str"), ("integer", "int"), ("boolean", "bool"), ("number", "float")]
  /** `SHACL_TYPE_MAPS`. */
  const ShaclTypes: TypeMap := [("float", "double"), ("bytes", "base64Binary")]
  /** `XSD_TYPE_MAPS`. */
  const XsdTypes: TypeMap := [("str", "string"), ("bytes", "base64Binary")]
  /** `TYPESCRIPT_TYPE_MAPS`. */
  const TypescriptTypes: TypeMap :=
    [("integer", "number"), ("float", "number"), ("date", "string"), ("bytes", "string")]

  /** `type_map.get(t).unwrap_or(t)`: the entry for `t`, or `t` itself. */
  function MapType(m: TypeMap, t: string): (r: string)
    ensures (t, r) in m || (r == t && forall i :: 0 <= i < |m| ==> m[i].0 != t)
  {
    match Lookup(m, t)
    case Some(v) => v
    case None => t
  }

  /** The four tables rename exactly the names they list. */
  lemma TypeMapsAsDeclared(t: string)
    ensures MapType(PythonTypes, t) ==
      (if t == "string" then "str" else if t == "integer" then "int"
       else if t == "boolean" then "bool" else if t == "number" then "float" else t)
    ensures MapType(ShaclTypes, t) ==
      (if t == "float" then "double" else if t == "bytes" then "base64Binary" else t)
    ensures MapType(XsdTypes, t) ==
      (if t == "str" then "string" else if t == "bytes" then "base64Binary" else t)
    ensures MapType(TypescriptTypes, t) ==
      (if t == "integer" || t == "float" then "number"
       else if t == "date" || t == "bytes" then "string" else t)
  {
    assert PythonTypes[1..][1..][1..][1..] == [];
    assert TypescriptTypes[1..][1..][1..][1..] == [];
    assert ShaclTypes[1..][1..] == [] && XsdTypes[1..][1..] == [];
  }

  /** No name a table produces is renamed by it again. */
  predicate Settled(m: TypeMap)
  {
    forall i, j :: 0 <= i < |m| && 0 <= j < |m| ==> m[i].1 != m[j].0
  }

  lemma TablesSettled()
    ensures Settled(PythonTypes) && Settled(ShaclTypes)
    ensures Settled(XsdTypes) && Settled(TypescriptTypes)
  {
  }

  /** The dtypes of one attribute, renamed one by one. */
  function ConvertDtypes(m: TypeMap, dtypes: seq<string>): (r: seq<string>)
    ensures |r| == |dtypes|
    ensures forall k :: 0 <= k < |r| ==> r[k] == MapType(m, dtypes[k])
  {
    if dtypes == [] then [] else [MapType(m, dtypes[0])] + ConvertDtypes(m, dtypes[1..])
  }

  function ConvertAttribute(m: TypeMap, a: AttributeData): AttributeData
  {
    a.(dtypes := ConvertDtypes(m, a.dtypes))
  }

  function ConvertObject(m: TypeMap, o: ObjectData): ObjectData
  {
    o.(attributes := seq(|o.attributes|, k requires 0 <= k < |o.attributes| => ConvertAttribute(m, o.attributes[k])))
  }

  /** `convert_model_types` on values: every dtype of every attribute of
   *  every object renamed. */
  function ConvertObjects(m: TypeMap, objects: seq<ObjectData>): seq<ObjectData>
  {
    seq(|objects|, i requires 0 <= i < |objects| => ConvertObject(m, objects[i]))
  }

  /** Renaming keeps the object's name, its attribute names in their
   *  order, every field but the dtypes and the number of dtypes; with a
   *  settled table a second renaming changes nothing. */
  lemma ConvertObjectKeeps(m: TypeMap, o: ObjectData)
    ensures ConvertObject(m, o).name == o.name && SameHash(ConvertObject(m, o), o)
    ensures |ConvertObject(m, o).attributes| == |o.attributes|
    ensures forall k :: 0 <= k < |o.attributes| ==>
      ConvertObject(m, o).attributes[k].(dtypes := o.attributes[k].dtypes) == o.attributes[k]
      && |ConvertObject(m, o).attributes[k].dtypes| == |o.attributes[k].dtypes|
    ensures Settled(m) ==> ConvertObject(m, ConvertObject(m, o)) == ConvertObject(m, o)
  {
    var c := ConvertObject(m, o);
    assert Names(c.attributes) == Names(o.attributes);
    if Settled(m) {
      forall k | 0 <= k < |c.attributes|
        ensures ConvertAttribute(m, c.attributes[k]) == c.attributes[k]
      {
        ConvertDtypesSettled(m, o.attributes[k].dtypes);
      }
    }
  }

  lemma ConvertDtypesSettled(m: TypeMap, dtypes: seq<string>)
    requires Settled(m)
    ensures ConvertDtypes(m, ConvertDtypes(m, dtypes)) == ConvertDtypes(m, dtypes)
  {
    var c := ConvertDtypes(m, dtypes);
    forall j | 0 <= j < |c| ensures MapType(m, c[j]) == c[j] {
      MapTypeSettled(m, dtypes[j]);
    }
  }

  /** Renaming keeps the object names and identities; with a settled table
   *  a second renaming changes nothing. */
  lemma ConvertObjectsKeeps(m: TypeMap, objects: seq<ObjectData>)
    ensures ObjectNames(ConvertObjects(m, objects)) == ObjectNames(objects)
    ensures forall i :: 0 <= i < |objects| ==> SameHash(ConvertObjects(m, objects)[i], objects[i])
    ensures Settled(m) ==> ConvertObjects(m, ConvertObjects(m, objects)) == ConvertObjects(m, objects)
  {
    forall i | 0 <= i < |objects|
      ensures ConvertObjects(m, objects)[i].name == objects[i].name
      ensures SameHash(ConvertObjects(m, objects)[i], objects[i])
      ensures Settled(m) ==> ConvertObject(m, ConvertObjects(m, objects)[i]) == ConvertObjects(m, objects)[i]
    {
      ConvertObjectKeeps(m, objects[i]);
    }
  }

  /** A settled table maps what it produced to itself. */
  lemma MapTypeSettled(m: TypeMap, t: string)
    requires Settled(m)
    ensures MapType(m, MapType(m, t)) == MapType(m, t)
  {
    var r := MapType(m, t);
    if (t, r) in m {
      var i :| 0 <= i < |m| && m[i] == (t, r);
      assert forall j :: 0 <= j < |m| ==> m[j].0 != r;
    }
  }

  /** `convert_model_types`: every dtype renamed in place, object by object
   *  and attribute by attribute. */
  method ConvertModelTypes(model: DataModel, m: TypeMap)
    modifies model
    ensures model.Data() == old(model.Data()).(objects := ConvertObjects(m, old(model.objects)))
  {
    for i := 0 to |model.objects|
      invariant |model.objects| == |old(model.objects)|
      invariant forall k :: 0 <= k < i ==> model.objects[k] == ConvertObject(m, old(model.objects)[k])
      invariant forall k :: i <= k < |model.objects| ==> model.objects[k] == old(model.objects)[k]
      invariant model.name == old(model.name) && model.enums == old(model.enums)
      invariant model.config == old(model.config)
    {
      var o := model.objects[i];
      var attrs := o.attributes;
      for j := 0 to |attrs|
        invariant |attrs| == |o.attributes|
        invariant forall k :: 0 <= k < j ==> attrs[k] == ConvertAttribute(m, o.attributes[k])
        invariant forall k :: j <= k < |attrs| ==> attrs[k] == o.attributes[k]
      {
        attrs := attrs[j := attrs[j].(dtypes := ConvertDtypes(m, attrs[j].dtypes))];
      }
      model.objects := model.objects[i := o.(attributes := attrs)];
    }
  }

  // ---------------------------------------------------------------------
  // Filtering and sorting

  const NoTermsPanic: string := "No objects with terms found in the model. Unable to build SHACL or ShEx."

  /** The objects `filter_objects_wo_terms` keeps are exactly those with at
   *  least one attribute term, in their order; none is kept exactly when no
   *  object has a term. */
  lemma KeptObjects(objects: seq<ObjectData>)
    ensures forall o :: o in Filter(HasAnyTerms, objects) <==> o in objects && HasAnyTerms(o)
    ensures Filter(HasAnyTerms, objects) == [] <==> forall i :: 0 <= i < |objects| ==> !HasAnyTerms(objects[i])
  {
    forall o ensures o in Filter(HasAnyTerms, objects) <==> o in objects && HasAnyTerms(o) {
      FilterMembers(HasAnyTerms, objects, o);
    }
  }

  /** `filter_objects_wo_terms`: objects without terms are dropped in place;
   *  when none remains the exporter panics. */
  method FilterObjectsWithoutTerms(model: DataModel) returns (r: Result<()>)
    modifies model
    ensures model.Data() == old(model.Data()).(objects := Filter(HasAnyTerms, old(model.objects)))
    ensures r.Err? <==> model.objects == []
    ensures r.Err? ==> r == Panic(NoTermsPanic)
  {
    var objects := model.objects;
    var kept := [];
    for i := 0 to |objects|
      invariant kept == Filter(HasAnyTerms, objects[..i])
      invariant model.Data() == old(model.Data())
    {
      assert objects[..i + 1] == objects[..i] + [objects[i]];
      FilterSnoc(HasAnyTerms, objects[..i], objects[i]);
      if HasAnyTerms(objects[i]) {
        kept := kept + [objects[i]];
      }
    }
    assert objects[..|objects|] == objects;
    model.objects := kept;
    if kept == [] {
      return Panic(NoTermsPanic);
    }
    return Ok(());
  }

  /** `sort_attributes_by_required`: every object's attributes put
   *  required-first in place. */
  method SortAttributesByRequired(model: DataModel)
    modifies model
    ensures model.Data() == old(model.Data()).(objects := SortAll(old(model.objects)))
  {
    model.SortAttrs();
  }

  /** The SHACL and ShEx preparation: renamed dtypes, then only the objects
   *  with terms, or a panic when there are none. */
  function PreparedShaclModel(d: Model): Result<Model>
  {
    var kept := Filter(HasAnyTerms, ConvertObjects(ShaclTypes, d.objects));
    if kept == [] then Panic(NoTermsPanic) else Ok(d.(objects := kept))
  }

  /** What `render_jinja_template` does to the model before rendering with
   *  template `t`. */
  function Prepared(t: Template, d: Model): Result<Model>
  {
    match t
    case XmlSchema => Ok(d.(objects := ConvertObjects(XsdTypes, d.objects)))
    case Typescript => Ok(d.(objects := ConvertObjects(TypescriptTypes, d.objects)))
    case Shacl | Shex => PreparedShaclModel(d)
    case PythonDataclass | PythonPydanticXml | PythonPydantic =>
      Ok(d.(objects := SortAll(ConvertObjects(PythonTypes, d.objects))))
    case _ => Ok(d)
  }

  /** Preparation keeps the name, enumerations and configuration, and the
   *  templates without a table change nothing. */
  lemma PreparedKeeps(t: Template, d: Model)
    ensures Prepared(t, d).Ok? ==>
      var p := Prepared(t, d).value;
      p.name == d.name && p.enums == d.enums && p.config == d.config
    ensures t in {Markdown, CompactMarkdown, JsonSchema, JsonSchemaAll, MkDocs, Internal} ==> Prepared(t, d) == Ok(d)
  {
  }

  /** The SHACL and ShEx templates fail exactly when no object has a term,
   *  and otherwise keep only the objects with terms. */
  lemma PreparedShacl(t: Template, d: Model)
    requires t == Shacl || t == Shex
    ensures Prepared(t, d).Err? <==> forall i :: 0 <= i < |d.objects| ==> !HasAnyTerms(d.objects[i])
    ensures Prepared(t, d).Err? ==> Prepared(t, d) == Panic(NoTermsPanic)
    ensures Prepared(t, d).Ok? ==>
      forall i :: 0 <= i < |Prepared(t, d).value.objects| ==> HasAnyTerms(Prepared(t, d).value.objects[i])
    ensures Prepared(t, d).Ok? ==>
      Prepared(t, d) == Ok(d.(objects := Filter(HasAnyTerms, ConvertObjects(ShaclTypes, d.objects))))
    ensures Prepared(t, d).Ok? ==> forall o ::
      o in Prepared(t, d).value.objects <==> o in ConvertObjects(ShaclTypes, d.objects) && HasAnyTerms(o)
  {
    var c := ConvertObjects(ShaclTypes, d.objects);
    assert Prepared(t, d) == (if Filter(HasAnyTerms, c) == [] then Panic(NoTermsPanic) else Ok(d.(objects := Filter(HasAnyTerms, c))));
    KeptObjects(c);
    forall i | 0 <= i < |c| ensures HasAnyTerms(c[i]) <==> HasAnyTerms(d.objects[i]) {
      ConvertedTerms(ShaclTypes, d.objects, i);
    }
  }

  /** Renaming dtypes keeps whether an object has a term. */
  lemma ConvertedTerms(m: TypeMap, objects: seq<ObjectData>, i: nat)
    requires i < |objects|
    ensures HasAnyTerms(ConvertObjects(m, objects)[i]) <==> HasAnyTerms(objects[i])
  {
    var o := objects[i];
    var c := ConvertObject(m, o);
    assert ConvertObjects(m, objects)[i] == c;
    assert forall k :: 0 <= k < |c.attributes| ==> c.attributes[k].term == o.attributes[k].term;
  }

  /** The Python templates keep every object, with its attributes put
   *  required-first. */
  lemma PreparedPython(t: Template, d: Model)
    requires t == PythonDataclass || t == PythonPydanticXml || t == PythonPydantic
    ensures var p := Prepared(t, d).value.objects;
      ObjectNames(p) == ObjectNames(d.objects)
      && forall i :: 0 <= i < |p| ==> p[i].attributes == RequiredFirst(p[i].attributes)
    ensures var p := Prepared(t, d).value.objects;
      forall i :: 0 <= i < |p| ==>
        var c := ConvertObject(PythonTypes, d.objects[i]);
        multiset(p[i].attributes) == multiset(c.attributes) && p[i].(attributes := c.attributes) == c
  {
    var py := ConvertObjects(PythonTypes, d.objects);
    assert Prepared(t, d) == Ok(d.(objects := SortAll(py)));
    ConvertObjectsKeeps(PythonTypes, d.objects);
    SortAllKeeps(py);
    forall i | 0 <= i < |py|
      ensures multiset(SortAll(py)[i].attributes) == multiset(py[i].attributes)
    {
      RequiredFirstPermutation(py[i].attributes);
    }
  }

  /** The preparation step of `render_jinja_template`, in place. */
  method PrepareForTemplate(t: Template, model: DataModel) returns (r: Result<()>)
    modifies model
    ensures r.Ok? <==> Prepared(t, old(model.Data())).Ok?
    ensures r.Ok? ==> model.Data() == Prepared(t, old(model.Data())).value
    ensures r.Err? ==> r == Panic(NoTermsPanic)
  {
    ghost var d := model.Data();
    r := Ok(());
    match t
    case XmlSchema => ConvertModelTypes(model, XsdTypes);
    case Typescript => ConvertModelTypes(model, TypescriptTypes);
    case Shacl =>
      ConvertModelTypes(model, ShaclTypes);
      r := FilterObjectsWithoutTerms(model);
      assert Prepared(t, d) == PreparedShaclModel(d);
    case Shex =>
      ConvertModelTypes(model, ShaclTypes);
      r := FilterObjectsWithoutTerms(model);
      assert Prepared(t, d) == PreparedShaclModel(d);
    case PythonDataclass =>
      ConvertModelTypes(model, PythonTypes);
      SortAttributesByRequired(model);
    case PythonPydanticXml =>
      ConvertModelTypes(model, PythonTypes);
      SortAttributesByRequired(model);
    case PythonPydantic =>
      ConvertModelTypes(model, PythonTypes);
      SortAttributesByRequired(model);
    case _ =>
      assert Prepared(t, d) == Ok(d);
  }

  // ---------------------------------------------------------------------
  // Text clean-up

  /** A line that is empty once right-trimmed. */
  predicate Blank(line: string)
  {
    Text.TrimEnd(line) == []
  }

  /** The counter `consec_empty` after `lines`: how many of the last lines
   *  are blank. */
  function TrailingBlanks(lines: seq<string>): (n: nat)
    ensures n <= |lines|
  {
    if lines == [] || !Blank(lines[|lines| - 1]) then 0
    else 1 + TrailingBlanks(lines[..|lines| - 1])
  }

  /** How many of the last strings are empty. */
  function TrailingEmpty(lines: seq<string>): (n: nat)
    ensures n <= |lines|
  {
    if lines == [] || lines[|lines| - 1] != [] then 0
    else 1 + TrailingEmpty(lines[..|lines| - 1])
  }

  function Min(a: nat, b: nat): nat
  {
    if a < b then a else b
  }

  /** No three empty strings in a row. */
  predicate AtMostTwoBlank(lines: seq<string>)
  {
    forall k :: 0 <= k < |lines| - 2 ==> !(lines[k] == [] && lines[k + 1] == [] && lines[k + 2] == [])
  }

  /** The right-trimmed lines without white-space at the end, in order. */
  function Filled(lines: seq<string>): (r: seq<string>)
  {
    if lines == [] then []
    else
      var t := Text.TrimEnd(lines[|lines| - 1]);
      Filled(lines[..|lines| - 1]) + (if t != [] then [t] else [])
  }

  predicate NonEmpty(s: string)
  {
    s != []
  }

  /** The lines `clean_and_trim` keeps: every line right-trimmed, and a
   *  blank line dropped when two blank lines come right before it. What
   *  is kept has no white-space at the end of a line and ends in as many
   *  empty lines as the input ends in blank ones, up to two. */
  function CleanLines(lines: seq<string>): (r: seq<string>)
    ensures forall k :: 0 <= k < |r| ==> r[k] == [] || !Text.IsWhitespace(r[k][|r[k]| - 1])
    ensures TrailingEmpty(r) == Min(TrailingBlanks(lines), 2)
  {
    if lines == [] then []
    else
      var init := lines[..|lines| - 1];
      var t := Text.TrimEnd(lines[|lines| - 1]);
      var before := CleanLines(init);
      if t != [] || TrailingBlanks(lines) < 3 then
        assert (before + [t])[..|before|] == before;
        before + [t]
      else before
  }

  /** Never three empty lines in a row are kept. */
  lemma {:induction false} CleanLinesAtMostTwo(lines: seq<string>)
    ensures AtMostTwoBlank(CleanLines(lines))
  {
    if lines != [] {
      var init := lines[..|lines| - 1];
      var t := Text.TrimEnd(lines[|lines| - 1]);
      var before := CleanLines(init);
      CleanLinesAtMostTwo(init);
      if t == [] && TrailingBlanks(lines) < 3 {
        TwoEmptyAtEnd(before);
        var r := before + [t];
        forall k | 0 <= k < |r| - 2 ensures !(r[k] == [] && r[k + 1] == [] && r[k + 2] == []) {
          if k < |before| - 2 {
            assert r[k] == before[k] && r[k + 1] == before[k + 1] && r[k + 2] == before[k + 2];
          }
        }
      } else if t != [] {
        var r := before + [t];
        forall k | 0 <= k < |r| - 2 ensures !(r[k] == [] && r[k + 1] == [] && r[k + 2] == []) {
          if k < |before| - 2 {
            assert r[k] == before[k] && r[k + 1] == before[k + 1] && r[k + 2] == before[k + 2];
          }
        }
      }
    }
  }

  /** Every filled line is kept, right-trimmed and in order. */
  lemma {:induction false} CleanLinesFilled(lines: seq<string>)
    ensures Filter(NonEmpty, CleanLines(lines)) == Filled(lines)
  {
    if lines != [] {
      var init := lines[..|lines| - 1];
      var t := Text.TrimEnd(lines[|lines| - 1]);
      CleanLinesFilled(init);
      FilterSnoc(NonEmpty, CleanLines(init), t);
    }
  }

  /** A sequence ending in two empty strings counts at least two. */
  lemma TwoEmptyAtEnd(lines: seq<string>)
    ensures |lines| >= 2 && lines[|lines| - 1] == [] && lines[|lines| - 2] == [] ==> TrailingEmpty(lines) >= 2
  {
    if |lines| >= 2 && lines[|lines| - 1] == [] {
      assert lines[..|lines| - 1][..|lines| - 2] == lines[..|lines| - 2];
    }
  }

  /** `clean_and_trim` on values. */
  function CleanedText(s: string): (r: string)
    ensures r != [] ==> !Text.IsWhitespace(r[0]) && !Text.IsWhitespace(r[|r| - 1])
  {
    Text.Trim(Text.Join(CleanLines(Text.Split(s, '\n')), "\n"))
  }

  /** `clean_and_trim`: the lines of `s` right-trimmed one by one, with a
   *  counter of consecutive blank lines that drops every blank line after
   *  the second; then joined and trimmed. */
  method CleanAndTrim(s: string) returns (r: string)
    ensures r == CleanedText(s)
  {
    var lines := Text.Split(s, '\n');
    var cleaned: seq<string> := [];
    var consecEmpty: nat := 0;
    for i := 0 to |lines|
      invariant cleaned == CleanLines(lines[..i])
      invariant consecEmpty == TrailingBlanks(lines[..i])
    {
      assert lines[..i + 1][..i] == lines[..i];
      var trimmed := Text.TrimEnd(lines[i]);
      if trimmed != [] {
        cleaned := cleaned + [trimmed];
        consecEmpty := 0;
      } else {
        consecEmpty := consecEmpty + 1;
        if consecEmpty < 3 {
          cleaned := cleaned + [trimmed];
        }
      }
    }
    assert lines[..|lines|] == lines;
    r := Text.Trim(Text.Join(cleaned, "\n"));
  }

  // ---------------------------------------------------------------------
  // Collapsing white-space

  /** `remove_multiple_spaces`: the white-space separated words joined by
   *  single spaces. */
  function RemoveMultipleSpaces(s: string): string
  {
    Text.Join(Text.SplitWhitespace(s), " ")
  }

  /** Non-empty words without white-space. */
  predicate Words(words: seq<string>)
  {
    forall k :: 0 <= k < |words| ==> words[k] != [] && forall j :: 0 <= j < |words[k]| ==> !Text.IsWhitespace(words[k][j])
  }

  /** The collapsed text neither starts nor ends with a space, holds no
   *  white-space but single spaces, and splits into the same words as the
   *  input; so collapsing twice is collapsing once. */
  lemma RemoveMultipleSpacesShape(s: string)
    ensures var r := RemoveMultipleSpaces(s);
      (r != [] ==> r[0] != ' ' && r[|r| - 1] != ' ')
      && (forall k :: 0 <= k < |r| && Text.IsWhitespace(r[k]) ==> r[k] == ' ')
      && (forall k :: 0 <= k < |r| - 1 ==> !(r[k] == ' ' && r[k + 1] == ' '))
      && Text.SplitWhitespace(r) == Text.SplitWhitespace(s)
      && RemoveMultipleSpaces(r) == r
  {
    var words := Text.SplitWhitespace(s);
    JoinWordsShape(words);
    SplitJoinedWords(words);
  }

  lemma {:induction false} JoinWordsShape(words: seq<string>)
    requires Words(words)
    ensures var r := Text.Join(words, " ");
      (r != [] ==> !Text.IsWhitespace(r[0]) && !Text.IsWhitespace(r[|r| - 1]))
      && (forall k :: 0 <= k < |r| && Text.IsWhitespace(r[k]) ==> r[k] == ' ')
      && (forall k :: 0 <= k < |r| - 1 ==> !(r[k] == ' ' && r[k + 1] == ' '))
  {
    if |words| >= 2 {
      var w := words[0];
      var rest := Text.Join(words[1..], " ");
      JoinWordsShape(words[1..]);
      var r := w + " " + rest;
      assert Text.Join(words, " ") == r;
      assert rest != [] by { assert words[1..][0] != []; }
      forall k | 0 <= k < |r| && Text.IsWhitespace(r[k]) ensures r[k] == ' ' {
        if k > |w| {
          assert r[k] == rest[k - |w| - 1];
        }
      }
      forall k | 0 <= k < |r| - 1 ensures !(r[k] == ' ' && r[k + 1] == ' ') {
        if k > |w| {
          assert r[k] == rest[k - |w| - 1];
        }
      }
    }
  }

  /** White-space splitting undoes joining words by single spaces. */
  lemma {:induction false} SplitJoinedWords(words: seq<string>)
    requires Words(words)
    ensures Text.SplitWhitespace(Text.Join(words, " ")) == words
  {
    if words == [] {
      SplitNothing();
    } else if |words| == 1 {
      SplitOneWord(words);
    } else {
      WordsTail(words);
      SplitJoinedWords(words[1..]);
      SplitMoreWords(words);
    }
  }

  lemma SplitOneWord(words: seq<string>)
    requires |words| == 1 && Words(words)
    ensures Text.SplitWhitespace(Text.Join(words, " ")) == words
  {
    SplitWord(words[0], []);
    SplitNothing();
    assert words[0] + [] == words[0];
    assert Text.Join(words, " ") == words[0];
    assert words == [words[0]];
  }

  /** The first word split off, the rest as the words after it split. */
  lemma SplitMoreWords(words: seq<string>)
    requires |words| >= 2 && Words(words)
    requires Text.SplitWhitespace(Text.Join(words[1..], " ")) == words[1..]
    ensures Text.SplitWhitespace(Text.Join(words, " ")) == words
  {
    JoinedCons(words);
    SplitWordSpace(words[0], Text.Join(words[1..], " "));
  }

  lemma SplitNothing()
    ensures Text.SplitWhitespace([]) == []
  {
    assert Text.TrimStart([]) == [];
  }

  lemma WordsTail(words: seq<string>)
    requires words != [] && Words(words)
    ensures Words(words[1..])
  {
    forall k | 0 <= k < |words[1..]| ensures words[1..][k] == words[k + 1] { }
  }

  lemma JoinedCons(words: seq<string>)
    requires |words| >= 2
    ensures Text.Join(words, " ") == words[0] + ([' '] + Text.Join(words[1..], " "))
    ensures words == [words[0]] + words[1..]
  {
    var w, rest := words[0], Text.Join(words[1..], " ");
    assert Text.Join(words, " ") == w + " " + rest;
    assert " " == [' '];
    AppendAssoc(w, [' '], rest);
    assert words == [words[0]] + words[1..];
  }

  /** A word, a space and more text: the word is split off and the space
   *  skipped. */
  lemma SplitWordSpace(w: string, rest: string)
    requires w != [] && forall j :: 0 <= j < |w| ==> !Text.IsWhitespace(w[j])
    ensures Text.SplitWhitespace(w + ([' '] + rest)) == [w] + Text.SplitWhitespace(rest)
  {
    SplitWord(w, [' '] + rest);
    SkipSpace(rest);
  }

  /** A word followed by nothing or by white-space is split off first. */
  lemma SplitWord(w: string, tail: string)
    requires w != [] && forall j :: 0 <= j < |w| ==> !Text.IsWhitespace(w[j])
    requires tail == [] || Text.IsWhitespace(tail[0])
    ensures Text.SplitWhitespace(w + tail) == [w] + Text.SplitWhitespace(tail)
  {
    var t := w + tail;
    assert Text.TrimStart(t) == t;
    WordLengthOf(w, tail);
    assert t[..|w|] == w && t[|w|..] == tail;
  }

  lemma {:induction false} WordLengthOf(w: string, tail: string)
    requires forall j :: 0 <= j < |w| ==> !Text.IsWhitespace(w[j])
    requires tail == [] || Text.IsWhitespace(tail[0])
    ensures Text.WordLength(w + tail) == |w|
  {
    if w != [] {
      assert (w + tail)[1..] == w[1..] + tail;
      WordLengthOf(w[1..], tail);
    }
  }

  /** A leading space does not change the words. */
  lemma SkipSpace(rest: string)
    ensures Text.SplitWhitespace([' '] + rest) == Text.SplitWhitespace(rest)
  {
    assert ([' '] + rest)[1..] == rest;
    assert Text.TrimStart([' '] + rest) == Text.TrimStart(rest);
  }
}
