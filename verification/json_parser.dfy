/** Reading a plain JSON schema document (with "definitions") into a data
 *  model: the root schema is the first object, object definitions follow,
 *  enumeration definitions become enumerations. */
module JsonParser {
  import opened Wrappers
  import Text
  import Seqs
  import OrderedMaps
  import opened JsonValues
  import D = JsonDataTypes
  import opened Attributes
  import opened Objects
  import opened Models

  /** The property keys that describe the property itself; every other key
   *  of a property is handed to the attribute as an option. */
  const PropKeys: seq<string> :=
    ["type", "format", "enum", "minimum", "maximum", "minItems", "maxItems", "title", "items", "$ref"]

  const NoTitlePanic: string := "Could not find title in the JSON schema"
  const TitleNotStringPanic: string := "Title is not a string"
  const NoPropertiesPanic: string := "Could not find properties in the JSON schema"
  const PropertiesNotObjectPanic: string := "Properties is not an object"
  const NoItemsPanic: string := "Could not find items in the array"
  const NoTypePanic: string := "Could not find type in the property"
  const TypeNotStringPanic: string := "Type is not a string"
  const NestedObjectPanic: string := "Nested object type is not supported yet"
  const InlineEnumPanic: string := "Property enums are currently only allowed as reference"
  const OptionPanic: string := "Failed to add option"

  // ---------------------------------------------------------------------
  // Enumeration aliases
  // ---------------------------------------------------------------------

  /** A parsed URL: its host, if any, and its path. */
  datatype Url = Url(host: Option<string>, path: string)

  /** The two library routines alias building relies on: URL parsing and
   *  conversion to snake case. */
  datatype Foreign = Foreign(parseUrl: string -> Option<Url>, snakeCase: string -> string)

  /** `remove_special_characters`: the alphanumeric characters, in order. */
  function RemoveSpecialCharacters(s: string): (r: string)
    ensures |r| <= |s|
    ensures forall c :: c in r <==> c in s && Text.IsAlphanumeric(c)
  {
    if s == [] then []
    else
      var rest := RemoveSpecialCharacters(s[1..]);
      assert forall c :: c in s <==> c == s[0] || c in s[1..];
      (if Text.IsAlphanumeric(s[0]) then [s[0]] else []) + rest
  }

  /** Text that is already alphanumeric is left as it is. */
  lemma {:induction false} RemoveSpecialCharactersKeeps(s: string)
    requires forall i :: 0 <= i < |s| ==> Text.IsAlphanumeric(s[i])
    ensures RemoveSpecialCharacters(s) == s
  {
    if s != [] {
      RemoveSpecialCharactersKeeps(s[1..]);
    }
  }

  /** Removing twice removes nothing more. */
  lemma RemoveSpecialCharactersIdempotent(s: string)
    ensures RemoveSpecialCharacters(RemoveSpecialCharacters(s)) == RemoveSpecialCharacters(s)
  {
    var r := RemoveSpecialCharacters(s);
    assert forall i :: 0 <= i < |r| ==> r[i] in r;
    RemoveSpecialCharactersKeeps(r);
  }

  /** The host without a leading "www." and with '.' as '_', then '_',
   *  then the path with '/' as '_'. */
  function AliasSource(url: Url): string
  {
    var host := Text.StripPrefixOr(if url.host.Some? then url.host.value else "", "www.");
    Text.Replace(host, '.', "_") + "_" + Text.Replace(url.path, '/', "_")
  }

  /** `url_to_enum_alias`: the alias source without its trailing '_'s. */
  function UrlToEnumAlias(url: Url): (r: string)
    ensures !Text.EndsWith(r, "_")
    ensures |r| <= |AliasSource(url)| && r == AliasSource(url)[..|r|]
    ensures forall i :: |r| <= i < |AliasSource(url)| ==> AliasSource(url)[i] == '_'
  {
    var full := AliasSource(url);
    TrimmedTail(full, "_");
    Text.TrimEndMatches(full, "_")
  }

  /** What `trim_end_matches` cuts off is made of the pattern. */
  lemma {:induction false} TrimmedTail(s: string, c: string)
    requires |c| == 1
    ensures var r := Text.TrimEndMatches(s, c); forall i :: |r| <= i < |s| ==> s[i] == c[0]
    decreases |s|
  {
    if Text.EndsWith(s, c) {
      TrimmedTail(s[..|s| - 1], c);
    }
  }

  /** A URL's alias: the separator before the path doubles the path's own
   *  leading '/', and the trailing '/' is dropped. */
  lemma UrlAliasExample()
    ensures UrlToEnumAlias(Url(Some("www.a.org"), "/b/")) == "a_org__b"
  {
    var url := Url(Some("www.a.org"), "/b/");
    ExampleSource();
    AliasOfSource(url, "a_org__b");
  }

  lemma ExampleSource()
    ensures AliasSource(Url(Some("www.a.org"), "/b/")) == "a_org__b" + "_"
  {
    ExampleHost();
    ExamplePath();
    ExampleJoin();
  }

  lemma ExampleJoin()
    ensures "a_org" + "_" + "_b_" == "a_org__b" + "_"
  {
  }

  /** An alias source with one trailing '_' loses exactly that one. */
  lemma AliasOfSource(url: Url, alias: string)
    requires AliasSource(url) == alias + "_" && alias != [] && alias[|alias| - 1] != '_'
    ensures UrlToEnumAlias(url) == alias
  {
    TrimOnce(alias, '_');
  }

  lemma ExampleHost()
    ensures Text.Replace(Text.StripPrefixOr("www.a.org", "www."), '.', "_") == "a_org"
  {
    ExampleStrip();
    ExampleDots();
  }

  lemma ExampleStrip()
    ensures Text.StripPrefixOr("www.a.org", "www.") == "a.org"
  {
    assert Text.StartsWith("www.a.org", "www.");
  }

  lemma ExampleDots()
    ensures Text.Replace("a.org", '.', "_") == "a_org"
  {
  }

  lemma ExamplePath()
    ensures Text.Replace("/b/", '/', "_") == "_b_"
  {
  }

  /** A single trailing pattern character is cut off, and no more when the
   *  character before it differs. */
  lemma TrimOnce(p: string, c: char)
    requires p != [] && p[|p| - 1] != c
    ensures Text.TrimEndMatches(p + [c], [c]) == p
  {
    var s := p + [c];
    assert Text.EndsWith(s, [c]) by { assert s[|s| - 1..] == [c]; }
    assert s[..|s| - 1] == p;
    assert !Text.EndsWith(p, [c]) by { assert p[|p| - 1..] == [p[|p| - 1]]; }
  }

  /** `create_enum_alias`: URLs by host and path, anything else by its
   *  alphanumeric characters; then snake case, upper-cased. */
  function EnumAlias(f: Foreign, value: string): (r: string)
    ensures forall i :: 0 <= i < |r| ==> !Text.IsAsciiLower(r[i])
  {
    var base := match f.parseUrl(value)
      case Some(url) => UrlToEnumAlias(url)
      case None => RemoveSpecialCharacters(value);
    var r := Text.ToUpper(f.snakeCase(base));
    assert forall i :: 0 <= i < |r| ==> r[i] == Text.ToUpperChar(f.snakeCase(base)[i]);
    r
  }

  function EnumEntries(f: Foreign, values: seq<string>): (r: seq<Option<(string, string)>>)
    ensures |r| == |values| && forall i :: 0 <= i < |values| ==> r[i] == Some((EnumAlias(f, values[i]), values[i]))
  {
    seq(|values|, i requires 0 <= i < |values| => Some((EnumAlias(f, values[i]), values[i])))
  }

  /** `create_enum`: each value under its alias (a `BTreeMap`, so a later
   *  value with the same alias replaces an earlier one), no docstring. */
  function CreateEnum(f: Foreign, name: string, values: seq<string>): (r: EnumData)
    ensures r.name == name && r.docstring == "" && r.position.None?
    ensures OrderedMaps.Valid(r.mappings)
    ensures forall k :: OrderedMaps.Get(r.mappings, k) == OrderedMaps.LastValue(EnumEntries(f, values), k)
  {
    var es := EnumEntries(f, values);
    OrderedMaps.InsertAllValid([], es);
    forall k ensures OrderedMaps.Get(OrderedMaps.InsertAll([], es), k) == OrderedMaps.LastValue(es, k) {
      OrderedMaps.InsertAllGet([], es, k);
    }
    EnumData(name, OrderedMaps.InsertAll([], es), "", None)
  }

  // ---------------------------------------------------------------------
  // Attributes
  // ---------------------------------------------------------------------

  /** `process_array`: an array attribute whose one type is the items'
   *  reference, or else the items' displayed type. */
  function ProcessArray(name: string, value: Json): (r: Result<AttributeData>)
    ensures r.Ok? ==> r.value == NewAttribute(name, false).(isArray := true, dtypes := r.value.dtypes)
    ensures r.Ok? ==> |r.value.dtypes| == 1
    ensures Get(value, "items").None? ==> r == Panic(NoItemsPanic)
    ensures r.Ok? ==> (var items := D.FromObject(Get(value, "items").value);
      items.Ok? && (items.value.Reference? ==> r.value.dtypes == [items.value.reference])
      && (!items.value.Reference? ==> D.Show(items.value).Ok? && r.value.dtypes == [D.Show(items.value).value]))
  {
    match Get(value, "items")
    case None => Panic(NoItemsPanic)
    case Some(items) =>
      match D.FromObject(items)
      case Err(e, p) => Err(e, p)
      case Ok(d) =>
        var shown := if d.Reference? then Ok(d.reference) else D.Show(d);
        if shown.Err? then Err(shown.error, shown.panicked)
        else Ok(NewAttribute(name, false).(isArray := true, dtypes := [shown.value]))
  }

  /** `process_primitive`: the "type" string is the one type. */
  function ProcessPrimitive(name: string, value: Json): (r: Result<AttributeData>)
    ensures r.Ok? <==> Get(value, "type").Some? && Get(value, "type").value.JString?
    ensures r.Ok? ==> r.value == NewAttribute(name, false).(dtypes := [Get(value, "type").value.s])
    ensures Get(value, "type").None? ==> r == Panic(NoTypePanic)
  {
    match Get(value, "type")
    case None => Panic(NoTypePanic)
    case Some(t) =>
      if t.JString? then Ok(NewAttribute(name, false).(dtypes := [t.s])) else Panic(TypeNotStringPanic)
  }

  /** `process_reference`: the reference is the one type. */
  function ProcessReference(name: string, reference: string): (r: AttributeData)
    ensures r == NewAttribute(name, false).(dtypes := [reference])
  {
    NewAttribute(name, false).(dtypes := [reference])
  }

  /** The attribute for one property, before its options: nested objects
   *  and inline enumerations are refused. */
  function PropertyAttribute(name: string, value: Json): (r: Result<AttributeData>)
    ensures D.FromObject(value).Err? ==> r == Err(D.FromObject(value).error, D.FromObject(value).panicked)
    ensures D.FromObject(value).Ok? && D.FromObject(value).value.Object? ==> r == Panic(NestedObjectPanic)
    ensures D.FromObject(value).Ok? && D.FromObject(value).value.Enum? ==> r == Panic(InlineEnumPanic)
    ensures D.FromObject(value).Ok? && D.FromObject(value).value.Array? ==> r == ProcessArray(name, value)
    ensures D.FromObject(value).Ok? && D.FromObject(value).value.Reference? ==>
      r == Ok(ProcessReference(name, D.FromObject(value).value.reference))
    ensures r.Ok? ==> r.value.name == name && |r.value.dtypes| == 1 && r.value.options == [] && !r.value.required
  {
    match D.FromObject(value)
    case Err(e, p) => Err(e, p)
    case Ok(d) =>
      match d
      case Object(_) => Panic(NestedObjectPanic)
      case Array => ProcessArray(name, value)
      case Enum(_) => Panic(InlineEnumPanic)
      case Reference(reference) => Ok(ProcessReference(name, reference))
      case _ => ProcessPrimitive(name, value)
  }

  /** One key of a property: a key of `PropKeys` is passed over, any other
   *  must hold a string and is added to the attribute as an option. */
  function OptionStep(a: AttributeData, field: (string, Json)): (r: Result<AttributeData>)
    ensures field.0 in PropKeys ==> r == Ok(a)
    ensures field.0 !in PropKeys && !field.1.JString? ==> r == Panic(NoneUnwrapPanic)
    ensures r.Ok? ==> r.value.name == a.name && r.value.required == a.required
  {
    if field.0 in PropKeys then Ok(a)
    else if !field.1.JString? then Panic(NoneUnwrapPanic)
    else
      match AddOptionSpec(a, NewAttrOption(field.0, field.1.s))
      case Err(_, _) => Panic(OptionPanic)
      case Ok(b) => Ok(b)
  }


  /** "description" sets the docstring, an unknown key becomes an option. */
  lemma OptionStepEffects(a: AttributeData, key: string, text: string)
    requires key !in PropKeys
    ensures Text.ToLower(key) == "description" ==> OptionStep(a, (key, JString(text))) == Ok(a.(docstring := text))
    ensures Text.ToLower(key) !in {"type", "term", "description", "xml", "default", "multiple"} ==>
      OptionStep(a, (key, JString(text))) == Ok(a.(options := a.options + [Options.Other(Text.ToLower(key), text)]))
  {
    Text.ToLowerIdempotent(key);
  }

  /** All the keys of a property, in order, stopping at the first failure. */
  function AddOptions(a: AttributeData, fields: seq<(string, Json)>): (r: Result<AttributeData>)
    ensures r.Ok? ==> r.value.name == a.name && r.value.required == a.required
    decreases |fields|
  {
    if fields == [] then Ok(a)
    else
      match OptionStep(a, fields[0])
      case Err(e, p) => Err(e, p)
      case Ok(b) => AddOptions(b, fields[1..])
  }

  /** Keys that only describe the property leave the attribute as it is. */
  lemma {:induction false} AddOptionsPropKeys(a: AttributeData, fields: seq<(string, Json)>)
    requires forall i :: 0 <= i < |fields| ==> fields[i].0 in PropKeys
    ensures AddOptions(a, fields) == Ok(a)
    decreases |fields|
  {
    if fields != [] {
      AddOptionsPropKeys(a, fields[1..]);
    }
  }

  /** The inner loop of `create_object`. */
  method AddPropertyOptions(a: AttributeData, fields: seq<(string, Json)>) returns (r: Result<AttributeData>)
    ensures r == AddOptions(a, fields)
  {
    var attribute := a;
    for i := 0 to |fields|
      invariant AddOptions(attribute, fields[i..]) == AddOptions(a, fields)
    {
      assert fields[i..][1..] == fields[i + 1..];
      var step := OptionStep(attribute, fields[i]);
      if step.Err? {
        return Err(step.error, step.panicked);
      }
      attribute := step.value;
    }
    assert fields[|fields|..] == [];
    return Ok(attribute);
  }

  /** One property as an attribute: its kind decides the type, its other
   *  keys the options. */
  function AttributeFromProperty(entry: (string, Json)): (r: Result<AttributeData>)
    ensures r.Ok? ==> r.value.name == entry.0 && !r.value.required
  {
    match PropertyAttribute(entry.0, entry.1)
    case Err(e, p) => Err(e, p)
    case Ok(a) => AddOptions(a, if entry.1.JObject? then entry.1.fields else [])
  }

  // ---------------------------------------------------------------------
  // Objects
  // ---------------------------------------------------------------------

  /** The title of a schema, which must be a string. */
  function Title(schema: Json): (r: Result<string>)
    ensures r.Ok? <==> Get(schema, "title").Some? && Get(schema, "title").value.JString?
    ensures r.Ok? ==> r.value == Get(schema, "title").value.s
    ensures Get(schema, "title").None? ==> r == Panic(NoTitlePanic)
  {
    match Get(schema, "title")
    case None => Panic(NoTitlePanic)
    case Some(t) => if t.JString? then Ok(t.s) else Panic(TitleNotStringPanic)
  }

  /** The entries of a schema's "properties" object. */
  function Properties(schema: Json): (r: Result<seq<(string, Json)>>)
    ensures r.Ok? <==> Get(schema, "properties").Some? && Get(schema, "properties").value.JObject?
    ensures r.Ok? ==> r.value == Get(schema, "properties").value.fields
  {
    match Get(schema, "properties")
    case None => Panic(NoPropertiesPanic)
    case Some(p) => if p.JObject? then Ok(p.fields) else Panic(PropertiesNotObjectPanic)
  }

  /** `create_object`: an object named by the title, with one attribute per
   *  property, named by the property key, in order. */
  function CreateObject(schema: Json): (r: Result<ObjectData>)
    ensures r.Ok? ==> Title(schema).Ok? && Properties(schema).Ok?
    ensures r.Ok? ==> (var props := Properties(schema).value;
      r.value.name == ObjectName(Title(schema).value) && r.value.term.None?
      && |r.value.attributes| == |props|
      && forall i :: 0 <= i < |props| ==> r.value.attributes[i].name == props[i].0 && !r.value.attributes[i].required)
    ensures Title(schema).Ok? && Properties(schema).Ok? ==>
      (r.Ok? <==> TryMap(AttributeFromProperty, Properties(schema).value).Ok?)
  {
    match Title(schema)
    case Err(e, p) => Err(e, p)
    case Ok(name) =>
      match Properties(schema)
      case Err(e, p) => Err(e, p)
      case Ok(props) =>
        match TryMap(AttributeFromProperty, props)
        case Err(e, p) => Err(e, p)
        case Ok(attrs) => Ok(NewObject(name, None).(attributes := attrs))
  }

  /** `create_object` as the source runs it: a loop pushing each attribute. */
  method CreateObjectFromSchema(schema: Json) returns (r: Result<ObjectData>)
    ensures r == CreateObject(schema)
  {
    var name := Title(schema);
    if name.Err? {
      return Err(name.error, name.panicked);
    }
    var props := Properties(schema);
    if props.Err? {
      return Err(props.error, props.panicked);
    }
    var ps := props.value;
    var found := NewObject(name.value, None);
    for i := 0 to |ps|
      invariant TryMap(AttributeFromProperty, ps[..i]) == Ok(found.attributes)
      invariant found == NewObject(name.value, None).(attributes := found.attributes)
    {
      var attribute := PropertyAttribute(ps[i].0, ps[i].1);
      if attribute.Ok? {
        attribute := AddPropertyOptions(attribute.value, if ps[i].1.JObject? then ps[i].1.fields else []);
      }
      if attribute.Err? {
        TryMapStops(AttributeFromProperty, ps, i);
        return Err(attribute.error, attribute.panicked);
      }
      TryMapSnoc(AttributeFromProperty, ps, i);
      found := found.(attributes := found.attributes + [attribute.value]);
    }
    assert ps[..|ps|] == ps;
    return Ok(found);
  }

  // ---------------------------------------------------------------------
  // The model
  // ---------------------------------------------------------------------

  predicate IsObjectDefinition(entry: (string, Json))
  {
    D.FromObject(entry.1).Ok? && D.FromObject(entry.1).value.Object?
  }

  predicate IsEnumDefinition(entry: (string, Json))
  {
    D.FromObject(entry.1).Ok? && D.FromObject(entry.1).value.Enum?
  }

  /** One definition: an object definition adds an object, an enumeration
   *  definition an enumeration named by its key, anything else nothing. */
  function AddDefinition(f: Foreign, m: Model, entry: (string, Json)): (r: Result<Model>)
    ensures r.Ok? ==> r.value.name == m.name && r.value.config == m.config
    ensures IsObjectDefinition(entry) ==>
      (r.Ok? <==> CreateObject(entry.1).Ok?)
      && (r.Ok? ==> r.value == m.(objects := m.objects + [CreateObject(entry.1).value]))
    ensures IsEnumDefinition(entry) ==>
      r == Ok(m.(enums := m.enums + [CreateEnum(f, entry.0, D.FromObject(entry.1).value.values)]))
    ensures D.FromObject(entry.1).Ok? && !IsObjectDefinition(entry) && !IsEnumDefinition(entry) ==> r == Ok(m)
    ensures D.FromObject(entry.1).Err? ==> r.Err?
  {
    match D.FromObject(entry.1)
    case Err(e, p) => Err(e, p)
    case Ok(d) =>
      match d
      case Object(_) =>
        (match CreateObject(entry.1)
         case Err(e, p) => Err(e, p)
         case Ok(o) => Ok(m.(objects := m.objects + [o])))
      case Enum(values) => Ok(m.(enums := m.enums + [CreateEnum(f, entry.0, values)]))
      case _ => Ok(m)
  }

  /** The definitions, in order, stopping at the first failure. */
  function AddDefinitions(f: Foreign, m: Model, defs: seq<(string, Json)>): (r: Result<Model>)
    decreases |defs|
  {
    if defs == [] then Ok(m)
    else
      match AddDefinition(f, m, defs[0])
      case Err(e, p) => Err(e, p)
      case Ok(m') => AddDefinitions(f, m', defs[1..])
  }

  /** Definitions only append: an object per object definition and an
   *  enumeration per enumeration definition, in order. */
  lemma {:induction false} AddDefinitionsCounts(f: Foreign, m: Model, defs: seq<(string, Json)>)
    requires AddDefinitions(f, m, defs).Ok?
    ensures var r := AddDefinitions(f, m, defs).value;
      r.name == m.name && r.config == m.config
      && |r.objects| == |m.objects| + |Seqs.Filter(IsObjectDefinition, defs)|
      && |r.enums| == |m.enums| + |Seqs.Filter(IsEnumDefinition, defs)|
      && r.objects[..|m.objects|] == m.objects && r.enums[..|m.enums|] == m.enums
    decreases |defs|
  {
    if defs != [] {
      var m' := AddDefinition(f, m, defs[0]).value;
      AddDefinitionsCounts(f, m', defs[1..]);
      AddDefinitionGrows(f, m, defs[0]);
      FilterUnfold(defs);
      var r := AddDefinitions(f, m, defs).value;
      assert r.objects[..|m'.objects|][..|m.objects|] == r.objects[..|m.objects|];
      assert r.enums[..|m'.enums|][..|m.enums|] == r.enums[..|m.enums|];
    }
  }

  /** One definition adds at most one object or enumeration. */
  lemma AddDefinitionGrows(f: Foreign, m: Model, entry: (string, Json))
    requires AddDefinition(f, m, entry).Ok?
    ensures var r := AddDefinition(f, m, entry).value;
      r.name == m.name && r.config == m.config
      && |r.objects| == |m.objects| + (if IsObjectDefinition(entry) then 1 else 0)
      && |r.enums| == |m.enums| + (if IsEnumDefinition(entry) then 1 else 0)
      && r.objects[..|m.objects|] == m.objects && r.enums[..|m.enums|] == m.enums
  {
  }

  lemma FilterUnfold(defs: seq<(string, Json)>)
    requires defs != []
    ensures |Seqs.Filter(IsObjectDefinition, defs)|
      == (if IsObjectDefinition(defs[0]) then 1 else 0) + |Seqs.Filter(IsObjectDefinition, defs[1..])|
    ensures |Seqs.Filter(IsEnumDefinition, defs)|
      == (if IsEnumDefinition(defs[0]) then 1 else 0) + |Seqs.Filter(IsEnumDefinition, defs[1..])|
  {
  }

  /** `parse_json_schema` once the document is read: the root schema is the
   *  first object, then come the definitions; the model is named by the
   *  root's title and has the default front matter. */
  function ParsedSchema(f: Foreign, schema: Json): (r: Result<Model>)
    ensures r.Ok? ==> Title(schema).Ok? && CreateObject(schema).Ok?
    ensures r.Ok? ==> r.value.name == Some(Title(schema).value) && r.value.config == Some(DefaultFrontMatter())
    ensures Get(schema, "title").None? ==> r == Panic(NoTitlePanic)
  {
    match Title(schema)
    case Err(e, p) => Err(e, p)
    case Ok(name) =>
      var model := Model(Some(name), [], [], Some(DefaultFrontMatter()));
      match CreateObject(schema)
      case Err(e, p) => Err(e, p)
      case Ok(root) =>
        match Get(schema, "definitions")
        case None => Panic(NoneUnwrapPanic)
        case Some(definitions) =>
          if !definitions.JObject? then Panic(NoneUnwrapPanic)
          else
            var r := AddDefinitions(f, model.(objects := [root]), definitions.fields);
            if r.Ok? then
              AddDefinitionsCounts(f, model.(objects := [root]), definitions.fields);
              r
            else r
  }

  /** The root object comes first, followed by one object per object
   *  definition; there is one enumeration per enumeration definition. */
  lemma ParsedSchemaShape(f: Foreign, schema: Json)
    requires ParsedSchema(f, schema).Ok?
    ensures var m := ParsedSchema(f, schema).value;
      var defs := Get(schema, "definitions").value.fields;
      Get(schema, "definitions").value.JObject?
      && |m.objects| == 1 + |Seqs.Filter(IsObjectDefinition, defs)|
      && m.objects[0] == CreateObject(schema).value
      && |m.enums| == |Seqs.Filter(IsEnumDefinition, defs)|
  {
    var name := Title(schema).value;
    var start := Model(Some(name), [CreateObject(schema).value], [], Some(DefaultFrontMatter()));
    var defs := Get(schema, "definitions").value.fields;
    AddDefinitionsCounts(f, start, defs);
    var m := ParsedSchema(f, schema).value;
    assert m.objects[..1][0] == m.objects[0];
  }

  /** `parse_json_schema` as the source runs it: the root, then a loop over
   *  the definitions pushing objects and enumerations. */
  method ParseJsonSchema(f: Foreign, schema: Json) returns (r: Result<Model>)
    ensures r == ParsedSchema(f, schema)
  {
    var name := Title(schema);
    if name.Err? {
      return Err(name.error, name.panicked);
    }
    var root := CreateObjectFromSchema(schema);
    if root.Err? {
      return Err(root.error, root.panicked);
    }
    var model := Model(Some(name.value), [root.value], [], Some(DefaultFrontMatter()));
    var definitions := Get(schema, "definitions");
    if definitions.None? || !definitions.value.JObject? {
      return Panic(NoneUnwrapPanic);
    }
    var defs := definitions.value.fields;
    ghost var start := model;
    for i := 0 to |defs|
      invariant AddDefinitions(f, model, defs[i..]) == AddDefinitions(f, start, defs)
    {
      assert defs[i..][1..] == defs[i + 1..];
      var next := AddDefinition(f, model, defs[i]);
      if next.Err? {
        return Err(next.error, next.panicked);
      }
      model := next.value;
    }
    assert defs[|defs|..] == [];
    return Ok(model);
  }
}
