/** Reading a JSON Schema into the data model: the root schema object and
 *  its object definitions become objects, its enumeration definitions
 *  become enumerations. */
module JsonImport {
  import opened Wrappers
  import Text
  import Numbers
  import Seqs
  import OrderedMaps
  import StringOrder
  import Options
  import opened Attributes
  import opened Objects
  import opened Models
  import S = JsonSchema

  /** Container types that are not data types of their own. */
  const IgnoreTypes: seq<string> := ["object", "array"]
  const InvalidReference: string := "Invalid reference format"
  const MissingTitle: string := "MISSING_TITLE"

  // ---------------------------------------------------------------------
  // References and keys
  // ---------------------------------------------------------------------

  /** `extract_reference`: the name after the last '/', which must not be
   *  empty. */
  function ExtractReference(reference: string): (r: Result<string>)
    ensures r.Ok? <==> Text.LastPiece(reference, '/') != []
    ensures r.Ok? ==> r.value == Text.LastPiece(reference, '/')
    ensures r.Err? ==> r == Err(InvalidReference)
  {
    var last := Text.LastPiece(reference, '/');
    if last == [] then Err(InvalidReference) else Ok(last)
  }

  /** A resolved reference is the tail of the reference after its last '/'. */
  lemma ExtractReferenceTail(reference: string)
    requires ExtractReference(reference).Ok?
    ensures var name := ExtractReference(reference).value;
      name != [] && '/' !in name && Text.EndsWith(reference, name)
      && (|name| < |reference| ==> reference[|reference| - |name| - 1] == '/')
  {
  }

  /** A reference to a definition resolves to the definition's name. */
  lemma ExtractDefinitionReference(name: string)
    requires name != [] && '/' !in name
    ensures ExtractReference("#/$defs/" + name) == Ok(name)
  {
    Text.LastPieceOfPath("#/$defs", '/', name);
    assert "#/$defs" + ['/'] + name == "#/$defs/" + name;
  }

  predicate IsKeyChar(c: char)
  {
    Text.IsAlphanumeric(c) || c == '_'
  }

  function AllKeyChars(s: string): (b: bool)
    ensures b <==> forall i :: 0 <= i < |s| ==> IsKeyChar(s[i])
  {
    if s == [] then true
    else if !IsKeyChar(s[0]) then false
    else
      assert forall i :: 1 <= i < |s| ==> s[i] == s[1..][i - 1];
      AllKeyChars(s[1..])
  }

  /** `is_valid_key`: an identifier of letters, digits and '_' that does not
   *  start with a digit. */
  function IsValidKey(s: string): (b: bool)
    ensures b <==> (s != [] && (Text.IsAlphabetic(s[0]) || s[0] == '_')
      && forall i :: 0 <= i < |s| ==> IsKeyChar(s[i]))
  {
    if s == [] then false
    else if !Text.IsAlphabetic(s[0]) && s[0] != '_' then false
    else AllKeyChars(s)
  }

  // ---------------------------------------------------------------------
  // Enumerations
  // ---------------------------------------------------------------------

  /** The key a value that is not a valid key is stored under. */
  function EscapedKey(i: nat): string
  {
    "VALUE_" + Numbers.ShowNat(i)
  }

  /** An escaped key is itself a valid key. */
  lemma EscapedKeyIsValid(i: nat)
    ensures IsValidKey(EscapedKey(i))
  {
    var k := EscapedKey(i);
    var digits := Numbers.ShowNat(i);
    forall j | 0 <= j < |k| ensures IsKeyChar(k[j]) {
      if j >= 6 {
        assert k[j] == digits[j - 6];
        assert Text.IsDigit(digits[j - 6]);
      }
    }
  }

  /** Different positions are escaped to different keys. */
  lemma EscapedKeyInjective(i: nat, j: nat)
    requires EscapedKey(i) == EscapedKey(j)
    ensures i == j
  {
    assert EscapedKey(i)[6..] == Numbers.ShowNat(i);
    assert EscapedKey(j)[6..] == Numbers.ShowNat(j);
    Numbers.DigitsValueShowNat(i);
    Numbers.DigitsValueShowNat(j);
  }

  /** The key value `v` at position `i` is stored under. */
  function EnumKey(i: nat, v: string): string
  {
    if IsValidKey(v) then v else EscapedKey(i)
  }

  function EnumEntries(values: seq<string>): (r: seq<Option<(string, string)>>)
    ensures |r| == |values|
    ensures forall i :: 0 <= i < |values| ==> r[i] == Some((EnumKey(i, values[i]), values[i]))
  {
    seq(|values|, i requires 0 <= i < |values| => Some((EnumKey(i, values[i]), values[i])))
  }

  /** `TryFrom<EnumObject> for Enumeration`: each value keyed by itself when
   *  it is a valid key and by "VALUE_<i>" otherwise, collected into a
   *  `BTreeMap`, so that a later entry for the same key wins. */
  function EnumFromSchema(e: S.EnumObject): (r: EnumData)
    ensures r.name == e.title && r.position.None?
    ensures r.docstring == (if e.description.Some? then e.description.value else "")
    ensures OrderedMaps.Valid(r.mappings)
    ensures forall k :: OrderedMaps.Get(r.mappings, k) == OrderedMaps.LastValue(EnumEntries(e.enumValues), k)
  {
    var mappings := OrderedMaps.InsertAll([], EnumEntries(e.enumValues));
    OrderedMaps.InsertAllValid([], EnumEntries(e.enumValues));
    forall k ensures OrderedMaps.Get(mappings, k) == OrderedMaps.LastValue(EnumEntries(e.enumValues), k) {
      OrderedMaps.InsertAllGet([], EnumEntries(e.enumValues), k);
    }
    EnumData(e.title, mappings, if e.description.Some? then e.description.value else "", None)
  }

  /** Every key of a converted enumeration is a valid key. */
  lemma EnumKeysAreValid(e: S.EnumObject, k: string)
    requires k in OrderedMaps.Keys(EnumFromSchema(e).mappings)
    ensures IsValidKey(k)
  {
    var es := EnumEntries(e.enumValues);
    OrderedMaps.LastValueSome(es, k);
    var i :| 0 <= i < |es| && es[i].Some? && es[i].value.0 == k;
    if !IsValidKey(e.enumValues[i]) {
      EscapedKeyIsValid(i);
    }
  }

  /** Only the value itself is stored under a valid key that does not look
   *  like an escaped one. */
  lemma ValidValueIsItsOwnKey(e: S.EnumObject, i: nat)
    requires i < |e.enumValues|
    requires IsValidKey(e.enumValues[i]) && !Text.StartsWith(e.enumValues[i], "VALUE_")
    ensures OrderedMaps.Get(EnumFromSchema(e).mappings, e.enumValues[i]) == Some(e.enumValues[i])
  {
    var v := e.enumValues[i];
    var es := EnumEntries(e.enumValues);
    LastValueUnique(es, v, v);
  }

  /** A value that is not a valid key is found under its escaped key,
   *  unless some valid value spells that very key. */
  lemma EscapedValueIsFound(e: S.EnumObject, i: nat)
    requires i < |e.enumValues|
    requires !IsValidKey(e.enumValues[i])
    requires EscapedKey(i) !in e.enumValues
    ensures OrderedMaps.Get(EnumFromSchema(e).mappings, EscapedKey(i)) == Some(e.enumValues[i])
  {
    var es := EnumEntries(e.enumValues);
    forall j | 0 <= j < |es| && es[j].Some? && es[j].value.0 == EscapedKey(i)
      ensures es[j].value.1 == e.enumValues[i]
    {
      if !IsValidKey(e.enumValues[j]) {
        EscapedKeyInjective(i, j);
      }
    }
    LastValueUnique(es, EscapedKey(i), e.enumValues[i]);
  }

  /** When every entry for `k` carries `v` and one exists, the last one does. */
  lemma {:induction false} LastValueUnique(es: seq<Option<(string, string)>>, k: string, v: string)
    requires exists j :: 0 <= j < |es| && es[j].Some? && es[j].value.0 == k
    requires forall j :: 0 <= j < |es| && es[j].Some? && es[j].value.0 == k ==> es[j].value.1 == v
    ensures OrderedMaps.LastValue(es, k) == Some(v)
    decreases |es|
  {
    assert es != [];
    assert forall j :: 1 <= j < |es| ==> es[j] == es[1..][j - 1];
    if exists j :: 0 <= j < |es[1..]| && es[1..][j].Some? && es[1..][j].value.0 == k {
      LastValueUnique(es[1..], k, v);
    } else {
      OrderedMaps.LastValueSome(es[1..], k);
    }
  }

  // ---------------------------------------------------------------------
  // Options
  // ---------------------------------------------------------------------

  /** The option an extra property key and its value stand for, read by
   *  `from_pair` as written: a key "Other" panics. */
  function OptionFor(entry: (string, S.PrimitiveType)): Result<Options.AttrOption>
  {
    Options.FromPairAsWritten(entry.0, S.ShowPrimitive(entry.1))
  }

  /** `parse_options` as the source runs it: a loop pushing each parsed
   *  option, stopping at the first failure. */
  method ParseOptions(options: seq<(string, S.PrimitiveType)>) returns (r: Result<seq<Options.AttrOption>>)
    ensures r == TryMap(OptionFor, options)
  {
    var parsed: seq<Options.AttrOption> := [];
    for i := 0 to |options|
      invariant TryMap(OptionFor, options[..i]) == Ok(parsed)
    {
      var option := OptionFor(options[i]);
      if option.Err? {
        TryMapStops(OptionFor, options, i);
        return Err(option.error, option.panicked);
      }
      TryMapSnoc(OptionFor, options, i);
      parsed := parsed + [option.value];
    }
    assert options[..|options|] == options;
    return Ok(parsed);
  }

  // ---------------------------------------------------------------------
  // Attributes
  // ---------------------------------------------------------------------

  predicate IsArrayProperty(p: S.Property)
  {
    p.dtype == Some(S.Array)
  }

  /** The type names and references a property lists: an array's items, or
   *  else its own type; then its `$ref`; then its `oneOf` alternatives. */
  function TypeSources(p: S.Property): seq<string>
  {
    (if IsArrayProperty(p) then (if p.items.Some? then S.GetTypes(p.items.value) else [])
     else if p.dtype.Some? then [S.Show(p.dtype.value)] else [])
    + (if p.reference.Some? then [p.reference.value] else [])
    + (if p.oneOf.Some? then S.GetTypesAll(p.oneOf.value) else [])
  }

  predicate Kept(t: string)
  {
    t !in IgnoreTypes
  }

  /** The property's type names: the sources resolved, without "object"
   *  and "array", each once (a `HashSet`, listed here in first-occurrence
   *  order). */
  function ResolveTypes(sources: seq<string>): (r: Result<seq<string>>)
    ensures r.Ok? <==> TryMap(ExtractReference, sources).Ok?
    ensures r.Err? ==> r == Err(InvalidReference)
    ensures r.Ok? ==> (Seqs.Distinct(r.value)
      && forall t :: t in r.value <==> Kept(t) && t in TryMap(ExtractReference, sources).value)
  {
    match TryMap(ExtractReference, sources)
    case Err(e, p) => Err(e, p)
    case Ok(types) =>
      var kept := Seqs.Filter(Kept, types);
      forall t ensures t in kept <==> Kept(t) && t in types {
        Seqs.FilterMembers(Kept, types, t);
      }
      Ok(Seqs.Dedup(kept))
  }

  /** `TryFrom<Property> for Attribute`: the name is the title, or a marker
   *  when there is none; the types are resolved from the sources; the
   *  extra keys become options. */
  function AttributeFromProperty(p: S.Property): (r: Result<AttributeData>)
    ensures r.Ok? <==> ResolveTypes(TypeSources(p)).Ok? && TryMap(OptionFor, p.options).Ok?
    ensures r.Err? && ResolveTypes(TypeSources(p)).Err? ==> r == Err(InvalidReference)
    ensures r.Ok? ==>
      var a := r.value;
      a.name == (if p.title.Some? then p.title.value else MissingTitle)
      && (a.isArray <==> IsArrayProperty(p))
      && a.dtypes == ResolveTypes(TypeSources(p)).value
      && a.docstring == (if p.description.Some? then p.description.value else "")
      && a.options == TryMap(OptionFor, p.options).value
      && a.term == p.term
      && !a.required && !a.isId && !a.isEnum
      && a.defaultValue.None? && a.xml.None? && a.position.None? && a.importPrefix.None?
  {
    match ResolveTypes(TypeSources(p))
    case Err(e, panicked) => Err(e, panicked)
    case Ok(types) =>
      match TryMap(OptionFor, p.options)
      case Err(e, panicked) => Err(e, panicked)
      case Ok(options) =>
        Ok(AttributeData(
          if p.title.Some? then p.title.value else MissingTitle,
          IsArrayProperty(p), false, types,
          if p.description.Some? then p.description.value else "",
          options, p.term, false, None, None, false, None, None))
  }

  /** A single source resolves to that one type, unless it is a container
   *  type. */
  lemma SingleSourceTypes(n: string)
    requires Text.LastPiece(n, '/') != []
    ensures ResolveTypes([n]).Ok?
    ensures ResolveTypes([n]).value ==
      (if Kept(Text.LastPiece(n, '/')) then [Text.LastPiece(n, '/')] else [])
  {
    var t := Text.LastPiece(n, '/');
    var d := ResolveTypes([n]).value;
    assert TryMap(ExtractReference, [n]).value == [t];
    if Kept(t) {
      Seqs.DistinctSingleton(d, t);
    }
  }

  /** A property that only refers to a definition has that definition's
   *  name as its one type. */
  lemma ReferenceProperty(p: S.Property, name: string)
    requires p.dtype.None? && p.oneOf.None? && p.reference == Some("#/$defs/" + name)
    requires name != [] && '/' !in name && Kept(name)
    requires TryMap(OptionFor, p.options).Ok?
    ensures AttributeFromProperty(p).Ok? && AttributeFromProperty(p).value.dtypes == [name]
    ensures !AttributeFromProperty(p).value.isArray
  {
    ExtractDefinitionReference(name);
    SingleSourceTypes("#/$defs/" + name);
  }

  /** A scalar property of a basic type has that type's name as its one
   *  type; an object property without a reference has none. */
  lemma ScalarProperty(p: S.Property, d: S.DataType)
    requires p.dtype == Some(d) && d != S.Array && !d.Multiple?
    requires p.reference.None? && p.oneOf.None?
    requires TryMap(OptionFor, p.options).Ok?
    ensures AttributeFromProperty(p).Ok?
    ensures AttributeFromProperty(p).value.dtypes == (if d == S.Object then [] else [S.Show(d)])
  {
    assert TypeSources(p) == [S.Show(d)];
    ScalarTypes(d);
  }

  /** The name of a basic type resolves to itself, except "object". */
  lemma ScalarTypes(d: S.DataType)
    requires d != S.Array && !d.Multiple?
    ensures ResolveTypes([S.Show(d)]) == Ok(if d == S.Object then [] else [S.Show(d)])
  {
    match d
    case String => KeptName("string");
    case Number => KeptName("number");
    case Integer => KeptName("integer");
    case Boolean => KeptName("boolean");
    case Object => PlainTypeName("object");
    case Null => KeptName("null");
  }

  /** A name that starts with neither 'o' nor 'a' is kept. */
  lemma KeptName(n: string)
    requires '/' !in n && n != [] && n[0] != 'o' && n[0] != 'a'
    ensures ResolveTypes([n]) == Ok([n])
  {
    assert n != IgnoreTypes[0] && n != IgnoreTypes[1];
    PlainTypeName(n);
  }

  /** A type name without a separator resolves to itself unless ignored. */
  lemma PlainTypeName(n: string)
    requires '/' !in n && n != []
    ensures ResolveTypes([n]) == Ok(if Kept(n) then [n] else [])
  {
    Text.LastPieceWhole(n, '/');
    SingleSourceTypes(n);
  }

  // ---------------------------------------------------------------------
  // Objects
  // ---------------------------------------------------------------------

  /** A property converted to an attribute named after its key. */
  function AttributeFromEntry(entry: (string, S.Property)): (r: Result<AttributeData>)
    ensures r.Ok? <==> AttributeFromProperty(entry.1).Ok?
    ensures r.Ok? ==> r.value == AttributeFromProperty(entry.1).value.(name := entry.0)
  {
    match AttributeFromProperty(entry.1)
    case Err(e, p) => Err(e, p)
    case Ok(a) => Ok(a.(name := entry.0))
  }

  /** The first attribute called `name` marked required. */
  function MarkOne(attrs: seq<AttributeData>, name: string): (r: seq<AttributeData>)
    ensures |r| == |attrs|
  {
    if attrs == [] then []
    else if attrs[0].name == name then [attrs[0].(required := true)] + attrs[1..]
    else [attrs[0]] + MarkOne(attrs[1..], name)
  }

  /** Marking the required names one after another. */
  function MarkRequired(attrs: seq<AttributeData>, required: seq<string>): (r: seq<AttributeData>)
    ensures |r| == |attrs|
    decreases |required|
  {
    if required == [] then attrs else MarkRequired(MarkOne(attrs, required[0]), required[1..])
  }

  /** With distinct names, exactly the listed attributes become required;
   *  listed names no attribute has are ignored, and nothing else changes. */
  lemma {:induction false} MarkRequiredEffect(attrs: seq<AttributeData>, required: seq<string>)
    requires Seqs.Distinct(AttrNames(attrs))
    ensures var r := MarkRequired(attrs, required);
      forall i :: 0 <= i < |attrs| ==> r[i] == attrs[i].(required := attrs[i].required || attrs[i].name in required)
    decreases |required|
  {
    if required != [] {
      var m := MarkOne(attrs, required[0]);
      MarkOneEffect(attrs, required[0]);
      assert AttrNames(m) == AttrNames(attrs);
      MarkRequiredEffect(m, required[1..]);
      var r := MarkRequired(attrs, required);
      forall i | 0 <= i < |attrs|
        ensures r[i] == attrs[i].(required := attrs[i].required || attrs[i].name in required)
      {
        assert attrs[i].name in required <==> attrs[i].name == required[0] || attrs[i].name in required[1..];
      }
    }
  }

  function AttrNames(attrs: seq<AttributeData>): (r: seq<string>)
    ensures |r| == |attrs| && forall i :: 0 <= i < |attrs| ==> r[i] == attrs[i].name
  {
    seq(|attrs|, i requires 0 <= i < |attrs| => attrs[i].name)
  }

  lemma {:induction false} MarkOneEffect(attrs: seq<AttributeData>, name: string)
    requires Seqs.Distinct(AttrNames(attrs))
    ensures var r := MarkOne(attrs, name);
      forall i :: 0 <= i < |attrs| ==> r[i] == attrs[i].(required := attrs[i].required || attrs[i].name == name)
  {
    if attrs != [] && attrs[0].name != name {
      assert AttrNames(attrs[1..]) == AttrNames(attrs)[1..];
      MarkOneEffect(attrs[1..], name);
    } else if attrs != [] {
      forall i | 1 <= i < |attrs| ensures attrs[i].name != name {
        assert AttrNames(attrs)[0] != AttrNames(attrs)[i];
      }
    }
  }

  /** Attributes before the first match are passed over unchanged. */
  lemma {:induction false} MarkOneSkips(attrs: seq<AttributeData>, name: string, i: nat)
    requires i <= |attrs| && forall j :: 0 <= j < i ==> attrs[j].name != name
    ensures MarkOne(attrs, name) == attrs[..i] + MarkOne(attrs[i..], name)
  {
    if i > 0 {
      assert attrs[0].name != name;
      assert forall j :: 0 <= j < i - 1 ==> attrs[1..][j] == attrs[j + 1];
      MarkOneSkips(attrs[1..], name, i - 1);
      PrefixCons(attrs, i, MarkOne(attrs[i..], name));
    }
  }

  lemma PrefixCons(attrs: seq<AttributeData>, i: nat, rest: seq<AttributeData>)
    requires 0 < i <= |attrs|
    ensures attrs[1..][i - 1..] == attrs[i..]
    ensures attrs[..i] + rest == [attrs[0]] + (attrs[1..][..i - 1] + rest)
  {
    assert attrs[1..][..i - 1] == attrs[1..i];
    assert attrs[..i] == [attrs[0]] + attrs[1..i];
  }

  /** `iter_mut().find(..)`: the first attribute called `name`, if any,
   *  gets its flag set. */
  method MarkFirst(attrs: seq<AttributeData>, name: string) returns (r: seq<AttributeData>)
    ensures r == MarkOne(attrs, name)
  {
    var i := 0;
    while i < |attrs| && attrs[i].name != name
      invariant 0 <= i <= |attrs|
      invariant forall j :: 0 <= j < i ==> attrs[j].name != name
    {
      i := i + 1;
    }
    MarkOneSkips(attrs, name, i);
    if i < |attrs| {
      r := attrs[i := attrs[i].(required := true)];
      assert r == attrs[..i] + MarkOne(attrs[i..], name);
    } else {
      r := attrs;
      assert attrs[..i] == attrs;
    }
  }

  /** The marking loop over the required names. */
  method MarkRequiredAttributes(attrs: seq<AttributeData>, required: seq<string>) returns (r: seq<AttributeData>)
    ensures r == MarkRequired(attrs, required)
  {
    r := attrs;
    for k := 0 to |required|
      invariant MarkRequired(r, required[k..]) == MarkRequired(attrs, required)
    {
      assert required[k..][1..] == required[k + 1..];
      r := MarkFirst(r, required[k]);
    }
    assert required[|required|..] == [];
  }

  /** `TryFrom<SchemaObject> for Object`: one attribute per property in key
   *  order, named by its key, required exactly when listed. */
  function ObjectFromSchema(o: S.SchemaObject): (r: Result<ObjectData>)
    ensures r.Ok? <==> TryMap(AttributeFromEntry, o.properties).Ok?
    ensures r.Ok? ==> (r.value.name == o.title
      && r.value.attributes == MarkRequired(TryMap(AttributeFromEntry, o.properties).value, o.required)
      && r.value.docstring == (if o.description.Some? then o.description.value else "")
      && r.value.term.None? && r.value.parent.None? && r.value.position.None? && r.value.mixins == [])
  {
    match TryMap(AttributeFromEntry, o.properties)
    case Err(e, p) => Err(e, p)
    case Ok(attrs) =>
      Ok(ObjectData(o.title, MarkRequired(attrs, o.required),
        if o.description.Some? then o.description.value else "", None, [], None, None))
  }

  /** With the distinct keys of a `BTreeMap`, attribute `i` is property `i`,
   *  renamed after its key and required exactly when its key is listed. */
  lemma ObjectAttributes(o: S.SchemaObject, i: nat)
    requires OrderedMaps.Valid(o.properties)
    requires ObjectFromSchema(o).Ok? && i < |o.properties|
    ensures var a := ObjectFromSchema(o).value.attributes;
      |a| == |o.properties| && a[i].name == o.properties[i].0
      && (a[i].required <==> o.properties[i].0 in o.required)
      && a[i].dtypes == AttributeFromProperty(o.properties[i].1).value.dtypes
  {
    var attrs := TryMap(AttributeFromEntry, o.properties).value;
    EntryNamesDistinct(o.properties, attrs);
    MarkRequiredEffect(attrs, o.required);
    assert attrs[i] == AttributeFromEntry(o.properties[i]).value;
  }

  /** Attributes read from a map with ordered keys have distinct names. */
  lemma EntryNamesDistinct(properties: OrderedMaps.OrderedMap<S.Property>, attrs: seq<AttributeData>)
    requires OrderedMaps.Valid(properties) && TryMap(AttributeFromEntry, properties) == Ok(attrs)
    ensures Seqs.Distinct(AttrNames(attrs))
  {
    forall x, y | 0 <= x < y < |attrs| ensures AttrNames(attrs)[x] != AttrNames(attrs)[y] {
      assert attrs[x].name == properties[x].0 && attrs[y].name == properties[y].0;
      StringOrderDistinct(properties, x, y);
    }
  }

  lemma StringOrderDistinct<V>(m: OrderedMaps.OrderedMap<V>, x: nat, y: nat)
    requires OrderedMaps.Valid(m) && x < y < |m|
    ensures m[x].0 != m[y].0
  {
    StringOrder.LessIrreflexive(m[x].0);
  }

  // ---------------------------------------------------------------------
  // Data models
  // ---------------------------------------------------------------------

  /** The definitions in key order: objects renamed after their keys are
   *  appended to `objects`, enumerations to `enums`. */
  function DefinitionsFrom(defs: seq<(string, S.SchemaType)>, objects: seq<ObjectData>, enums: seq<EnumData>):
    (r: Result<(seq<ObjectData>, seq<EnumData>)>)
    decreases |defs|
  {
    if defs == [] then Ok((objects, enums))
    else
      var (name, def) := defs[0];
      match def
      case ObjectSchema(o) =>
        (match ObjectFromSchema(o)
         case Err(e, p) => Err(e, p)
         case Ok(obj) => DefinitionsFrom(defs[1..], objects + [obj.(name := name)], enums))
      case EnumSchema(e) => DefinitionsFrom(defs[1..], objects, enums + [EnumFromSchema(e).(name := name)])
  }

  function ObjectKeys(defs: seq<(string, S.SchemaType)>): seq<string>
  {
    if defs == [] then [] else (if defs[0].1.ObjectSchema? then [defs[0].0] else []) + ObjectKeys(defs[1..])
  }

  function EnumKeys(defs: seq<(string, S.SchemaType)>): seq<string>
  {
    if defs == [] then [] else (if defs[0].1.EnumSchema? then [defs[0].0] else []) + EnumKeys(defs[1..])
  }

  /** Objects keep the keys of their definitions, in order. */
  lemma {:induction false} DefinitionObjectNames(defs: seq<(string, S.SchemaType)>, objects: seq<ObjectData>, enums: seq<EnumData>)
    requires DefinitionsFrom(defs, objects, enums).Ok?
    ensures ObjectNames(DefinitionsFrom(defs, objects, enums).value.0) == ObjectNames(objects) + ObjectKeys(defs)
    decreases |defs|
  {
    if defs != [] {
      var (name, def) := defs[0];
      if def.ObjectSchema? {
        var obj := ObjectFromSchema(def.obj).value.(name := name);
        DefinitionObjectNames(defs[1..], objects + [obj], enums);
        assert ObjectNames(objects + [obj]) == ObjectNames(objects) + [name];
      } else {
        DefinitionObjectNames(defs[1..], objects, enums + [EnumFromSchema(def.enumeration).(name := name)]);
      }
    }
  }

  /** Enumerations keep the keys of their definitions, in order. */
  lemma {:induction false} DefinitionEnumNames(defs: seq<(string, S.SchemaType)>, objects: seq<ObjectData>, enums: seq<EnumData>)
    requires DefinitionsFrom(defs, objects, enums).Ok?
    ensures EnumNames(DefinitionsFrom(defs, objects, enums).value.1) == EnumNames(enums) + EnumKeys(defs)
    decreases |defs|
  {
    if defs != [] {
      var (name, def) := defs[0];
      if def.ObjectSchema? {
        DefinitionEnumNames(defs[1..], objects + [ObjectFromSchema(def.obj).value.(name := name)], enums);
      } else {
        var en := EnumFromSchema(def.enumeration).(name := name);
        DefinitionEnumNames(defs[1..], objects, enums + [en]);
        assert EnumNames(enums + [en]) == EnumNames(enums) + [name];
      }
    }
  }

  /** `TryFrom<SchemaObject> for DataModel`: the root object first, then the
   *  definitions; the model is named after the root's title. */
  function ModelFromSchema(s: S.SchemaObject): (r: Result<Model>)
  {
    match ObjectFromSchema(s)
    case Err(e, p) => Err(e, p)
    case Ok(root) =>
      match DefinitionsFrom(s.definitions, [root], [])
      case Err(e, p) => Err(e, p)
      case Ok((objects, enums)) => Ok(Model(Some(s.title), objects, enums, None))
  }

  /** The model's objects are the root and the object definitions, its
   *  enumerations the enumeration definitions, all in key order. */
  lemma ModelFromSchemaShape(s: S.SchemaObject)
    requires ModelFromSchema(s).Ok?
    ensures var m := ModelFromSchema(s).value;
      m.name == Some(s.title) && m.config.None?
      && m.objects != [] && m.objects[0] == ObjectFromSchema(s).value
      && ObjectNames(m.objects) == [s.title] + ObjectKeys(s.definitions)
      && EnumNames(m.enums) == EnumKeys(s.definitions)
  {
    ModelFromSchemaUnfold(s);
    DefinitionsAfterRoot(s.definitions, ObjectFromSchema(s).value);
  }

  /** Definitions read after a root object keep it first, then add one
   *  object per object key and one enumeration per enumeration key. */
  lemma DefinitionsAfterRoot(defs: seq<(string, S.SchemaType)>, root: ObjectData)
    requires DefinitionsFrom(defs, [root], []).Ok?
    ensures var d := DefinitionsFrom(defs, [root], []).value;
      d.0 != [] && d.0[0] == root
      && ObjectNames(d.0) == [root.name] + ObjectKeys(defs)
      && EnumNames(d.1) == EnumKeys(defs)
  {
    var d := DefinitionsFrom(defs, [root], []);
    DefinitionObjectNames(defs, [root], []);
    DefinitionEnumNames(defs, [root], []);
    DefinitionsFromPrefix(defs, [root], []);
    assert d.value.0[..1] == [root];
    assert d.value.0[0] == root;
    assert ObjectNames([root]) == [root.name];
    assert EnumNames([]) == [];
  }

  lemma ModelFromSchemaUnfold(s: S.SchemaObject)
    requires ModelFromSchema(s).Ok?
    ensures ObjectFromSchema(s).Ok?
    ensures var d := DefinitionsFrom(s.definitions, [ObjectFromSchema(s).value], []);
      d.Ok? && ModelFromSchema(s).value == Model(Some(s.title), d.value.0, d.value.1, None)
  {
  }

  lemma {:induction false} DefinitionsFromPrefix(defs: seq<(string, S.SchemaType)>, objects: seq<ObjectData>, enums: seq<EnumData>)
    requires DefinitionsFrom(defs, objects, enums).Ok?
    ensures |objects| <= |DefinitionsFrom(defs, objects, enums).value.0|
    ensures DefinitionsFrom(defs, objects, enums).value.0[..|objects|] == objects
    decreases |defs|
  {
    if defs != [] {
      var (name, def) := defs[0];
      match def
      case ObjectSchema(o) =>
        var obj := ObjectFromSchema(o).value.(name := name);
        DefinitionsFromPrefix(defs[1..], objects + [obj], enums);
        assert (objects + [obj])[..|objects|] == objects;
      case EnumSchema(e) =>
        DefinitionsFromPrefix(defs[1..], objects, enums + [EnumFromSchema(e).(name := name)]);
    }
  }

  /** The conversion loop over the definitions. */
  method ConvertSchema(s: S.SchemaObject) returns (r: Result<Model>)
    ensures r == ModelFromSchema(s)
  {
    var root := ObjectFromSchema(s);
    if root.Err? {
      return Err(root.error, root.panicked);
    }
    var objects := [root.value];
    var enums: seq<EnumData> := [];
    for i := 0 to |s.definitions|
      invariant DefinitionsFrom(s.definitions[i..], objects, enums) == DefinitionsFrom(s.definitions, [root.value], [])
    {
      assert s.definitions[i..][1..] == s.definitions[i + 1..];
      var (name, def) := s.definitions[i];
      match def {
        case ObjectSchema(o) =>
          var obj := ObjectFromSchema(o);
          if obj.Err? {
            return Err(obj.error, obj.panicked);
          }
          objects := objects + [obj.value.(name := name)];
        case EnumSchema(e) =>
          enums := enums + [EnumFromSchema(e).(name := name)];
      }
    }
    assert s.definitions[|s.definitions|..] == [];
    return Ok(Model(Some(s.title), objects, enums, None));
  }
}
