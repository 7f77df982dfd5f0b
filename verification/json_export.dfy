/** Writing a data model as a JSON Schema: the root object becomes the
 *  schema, every object and enumeration it reaches becomes a definition
 *  under "$defs". */
module JsonExport {
  import opened Wrappers
  import Text
  import Seqs
  import OrderedMaps
  import Options
  import Numbers
  import Validation
  import opened Attributes
  import opened Objects
  import opened Models
  import S = JsonSchema
  import JsonImport

  const SchemaUri: string := "https://json-schema.org/draft/2020-12/schema"
  const DefsPrefix: string := "#/$defs/"
  /** What indexing the first type of an attribute without types panics with. */
  const EmptyIndexPanic: string := "index out of bounds: the len is 0 but the index is 0"

  function NoDataTypes(name: string): string
  {
    "No data types found for attribute: " + name
  }

  // ---------------------------------------------------------------------
  // Looking up objects and enumerations
  // ---------------------------------------------------------------------

  /** `retrieve_object`: the first object with that name. */
  function RetrieveObject(m: Model, name: string): (r: Result<ObjectData>)
    ensures r.Ok? <==> name in ObjectNames(m.objects)
    ensures r.Ok? ==> r.value in m.objects && r.value.name == name
    ensures r.Err? ==> r == Err("Object " + name + " not found")
  {
    match FindObject(m.objects, name)
    case Some(o) => Ok(o)
    case None => Err("Object " + name + " not found")
  }

  /** `retrieve_enum`: the first enumeration with that name. */
  function RetrieveEnum(m: Model, name: string): (r: Result<EnumData>)
    ensures r.Ok? <==> name in EnumNames(m.enums)
    ensures r.Ok? ==> r.value in m.enums && r.value.name == name
    ensures r.Err? ==> r == Err("Enum " + name + " not found")
  {
    match FindEnum(m.enums, name)
    case Some(e) => Ok(e)
    case None => Err("Enum " + name + " not found")
  }

  // ---------------------------------------------------------------------
  // Types and items
  // ---------------------------------------------------------------------

  /** A type name the schema writes as an object: one `from_str` does not
   *  know, or "object" itself. */
  predicate NamesObject(d: string)
  {
    !S.IsTypeName(d) || d == "object"
  }

  /** `TryFrom<&Attribute> for DataType`: an array is an array; otherwise
   *  the first type decides, and there must be one. */
  function AttributeDataType(a: AttributeData): (r: Result<S.DataType>)
    ensures r.Ok? <==> a.isArray || a.dtypes != []
    ensures r.Err? ==> r == Err(NoDataTypes(a.name))
    ensures r.Ok? && !a.isArray ==> (r.value == S.Object <==> NamesObject(a.dtypes[0]))
    ensures r.Ok? && !a.isArray && S.IsTypeName(a.dtypes[0]) ==> r == S.FromStr(a.dtypes[0])
  {
    if a.isArray then Ok(S.Array)
    else if a.dtypes == [] then Err(NoDataTypes(a.name))
    else S.FromName(a.dtypes[0])
  }

  /** `process_dtype`: a type name `from_str` knows becomes a data type
   *  item, anything else a reference to its definition. */
  function ProcessDtype(d: string): (r: S.Item)
    ensures r.DataTypeItem? <==> S.IsTypeName(d)
    ensures r.DataTypeItem? ==> S.FromStr(d) == Ok(r.dtype)
    ensures !r.DataTypeItem? ==> r == S.ReferenceItem(DefsPrefix + d)
  {
    match S.FromStr(d)
    case Ok(t) => S.DataTypeItem(t)
    case Err(_, _) => S.ReferenceItem(DefsPrefix + d)
  }

  /** `From<&Attribute> for Vec<Item>`: nothing for a single type, one item
   *  per type otherwise. */
  function OneOfItems(dtypes: seq<string>): (r: seq<S.Item>)
    ensures |dtypes| == 1 ==> r == []
    ensures |dtypes| != 1 ==> |r| == |dtypes|
  {
    if |dtypes| == 1 then []
    else seq(|dtypes|, i requires 0 <= i < |dtypes| => ProcessDtype(dtypes[i]))
  }

  /** The item loop of `From<&Attribute> for Vec<Item>`. */
  method CollectOneOf(dtypes: seq<string>) returns (items: seq<S.Item>)
    ensures items == OneOfItems(dtypes)
  {
    if |dtypes| == 1 {
      return [];
    }
    items := [];
    for i := 0 to |dtypes|
      invariant items == OneOfItems(dtypes)[..i]
    {
      items := items + [ProcessDtype(dtypes[i])];
    }
  }

  /** `From<&Attribute> for Option<Item>`: only an array has items, a single
   *  item for one type and a `oneOf` for several; an array without types
   *  panics on its first type. */
  function ItemsOf(a: AttributeData): (r: Result<Option<S.Item>>)
    ensures r.Err? <==> a.isArray && a.dtypes == []
    ensures r.Err? ==> r == Panic(EmptyIndexPanic)
    ensures r.Ok? ==> (r.value.Some? <==> a.isArray)
    ensures r.Ok? && a.isArray && |a.dtypes| == 1 ==> r.value == Some(ProcessDtype(a.dtypes[0]))
    ensures r.Ok? && a.isArray && |a.dtypes| > 1 ==> r.value == Some(S.OneOfItem(OneOfItems(a.dtypes)))
  {
    if !a.isArray then Ok(None)
    else if OneOfItems(a.dtypes) == [] then
      if a.dtypes == [] then Panic(EmptyIndexPanic) else Ok(Some(ProcessDtype(a.dtypes[0])))
    else Ok(Some(S.OneOfItem(OneOfItems(a.dtypes))))
  }

  // ---------------------------------------------------------------------
  // Options and defaults
  // ---------------------------------------------------------------------

  /** `TryFrom<&AttrOption> for PrimitiveType`: the value is tried as a
   *  float, then as a boolean (exactly "true" or "false"), then as an
   *  integer, and is text otherwise. Every integer literal already reads
   *  as a float, so the integer case is never reached. */
  function OptionPrimitive(value: string): (r: S.PrimitiveType)
    ensures r.PNumber? <==> Numbers.IsFloatLiteral(value)
    ensures r.PNumber? ==> r.number == value
    ensures r.PBoolean? <==> !Numbers.IsFloatLiteral(value) && (value == "true" || value == "false")
    ensures r.PBoolean? ==> (r.flag <==> value == "true")
    ensures !r.PInteger?
    ensures r.PString? ==> r.text == value
  {
    var f := Numbers.ParseF64(value);
    if f.Some? then S.PNumber(f.value)
    else
      var b := Numbers.ParseBool(value);
      if b.Some? then S.PBoolean(b.value)
      else
        var i := Numbers.ParseI64(value);
        if i.Some? then
          Numbers.EveryIntegerIsAFloatLiteral(value);
          assert false;
          S.PInteger(0)
        else S.PString(value)
  }

  function OptionEntries(options: seq<Options.AttrOption>): (r: seq<Option<(string, S.PrimitiveType)>>)
    ensures |r| == |options|
    ensures forall i :: 0 <= i < |options| ==>
      r[i] == Some((Options.Key(options[i]), OptionPrimitive(Options.Value(options[i]))))
  {
    seq(|options|, i requires 0 <= i < |options| =>
      Some((Options.Key(options[i]), OptionPrimitive(Options.Value(options[i])))))
  }

  /** The options keyed by their names, a later option replacing an earlier
   *  one with the same name (a `HashMap`, held here in key order). */
  function OptionsMap(options: seq<Options.AttrOption>): (r: OrderedMaps.OrderedMap<S.PrimitiveType>)
    ensures OrderedMaps.Valid(r)
    ensures forall k :: OrderedMaps.Get(r, k) == OrderedMaps.LastValue(OptionEntries(options), k)
  {
    var es := OptionEntries(options);
    OrderedMaps.InsertAllValid([], es);
    forall k ensures OrderedMaps.Get(OrderedMaps.InsertAll([], es), k) == OrderedMaps.LastValue(es, k) {
      OrderedMaps.InsertAllGet([], es, k);
    }
    OrderedMaps.InsertAll([], es)
  }

  /** `process_default`: a text type keeps only a text default, unquoted;
   *  any other type keeps whatever default there is. */
  function ProcessDefault(d: Attributes.DataType, dtype: Option<S.DataType>): (r: Option<S.PrimitiveType>)
    ensures dtype == Some(S.String) ==> (r.Some? <==> d.String?)
    ensures dtype != Some(S.String) ==> r == Some(S.FromAttributeValue(d))
    ensures r.Some? ==> r.value == S.FromAttributeValue(d)
  {
    if dtype == Some(S.String) then
      if d.String? then Some(S.PString(Text.TrimMatches(d.text, '"'))) else None
    else Some(S.FromAttributeValue(d))
  }

  // ---------------------------------------------------------------------
  // Properties, objects and enumerations
  // ---------------------------------------------------------------------

  /** `TryFrom<&Attribute> for Property`. */
  function PropertyFromAttribute(a: AttributeData): (r: Result<S.Property>)
    ensures r.Err? && !r.panicked <==> !a.isEnum && !a.isArray && a.dtypes == []
    ensures r.Err? && !r.panicked ==> r == Err(NoDataTypes(a.name))
    ensures IsPanic(r) <==> a.dtypes == [] && (a.isEnum || a.isArray)
    ensures r.Ok? ==> (r.value.title == Some(a.name) && r.value.term == a.term
      && (r.value.items.Some? <==> a.isArray)
      && (r.value.oneOf.Some? <==> !a.isArray)
      && (r.value.description.Some? <==> a.docstring != [])
      && (r.value.enumValues.Some? <==> a.isEnum)
      && (r.value.dtype.Some? <==> !a.isEnum && (a.isArray || |a.dtypes| == 1))
      && (r.value.reference.Some? <==> a.isEnum || (!a.isArray && NamesObject(a.dtypes[0])))
      && (r.value.reference.Some? ==> r.value.reference.value == DefsPrefix + a.dtypes[0]))
  {
    var dtype := if a.isEnum then Ok(None)
      else match AttributeDataType(a)
        case Ok(d) => Ok(Some(d))
        case Err(e, p) => Err(e, p);
    if dtype.Err? then Err(dtype.error, dtype.panicked)
    else
      var refers := a.isEnum || dtype.value == Some(S.Object);
      if refers && a.dtypes == [] then Panic(EmptyIndexPanic)
      else
        match ItemsOf(a)
        case Err(e, p) => Err(e, p)
        case Ok(items) =>
          var kept := if |a.dtypes| > 1 && !a.isArray then None else dtype.value;
          Ok(S.Property(
            Some(a.name),
            kept,
            if a.defaultValue.Some? then ProcessDefault(a.defaultValue.value, kept) else None,
            if a.docstring != [] then Some(a.docstring) else None,
            a.term,
            if refers then Some(DefsPrefix + a.dtypes[0]) else None,
            OptionsMap(a.options),
            items,
            if !a.isArray then Some(OneOfItems(a.dtypes)) else None,
            None, None,
            if a.isEnum then Some([]) else None))
  }

  function PropertyEntry(a: AttributeData): (r: Result<(string, S.Property)>)
    ensures r.Ok? <==> PropertyFromAttribute(a).Ok?
    ensures r.Ok? ==> r.value == (a.name, PropertyFromAttribute(a).value)
  {
    match PropertyFromAttribute(a)
    case Err(e, p) => Err(e, p)
    case Ok(p) => Ok((a.name, p))
  }

  function SomeEntries<V>(es: seq<(string, V)>): (r: seq<Option<(string, V)>>)
    ensures |r| == |es| && forall i :: 0 <= i < |es| ==> r[i] == Some(es[i])
  {
    seq(|es|, i requires 0 <= i < |es| => Some(es[i]))
  }

  /** The names of the required attributes, in order. */
  function RequiredNames(attrs: seq<AttributeData>): (r: seq<string>)
    ensures forall n :: n in r <==> exists i :: 0 <= i < |attrs| && attrs[i].required && attrs[i].name == n
  {
    if attrs == [] then []
    else
      assert forall i :: 1 <= i < |attrs| ==> attrs[i] == attrs[1..][i - 1];
      (if attrs[0].required then [attrs[0].name] else []) + RequiredNames(attrs[1..])
  }

  /** `TryFrom<&Object> for SchemaObject`: one property per attribute, keyed
   *  by its name (a `BTreeMap`, a later attribute replacing an earlier one of
   *  the same name), the required names in order, no definitions. */
  function SchemaObjectFromObject(o: ObjectData): (r: Result<S.SchemaObject>)
    ensures r.Ok? <==> forall i :: 0 <= i < |o.attributes| ==> PropertyFromAttribute(o.attributes[i]).Ok?
    ensures r.Ok? ==> (r.value.title == o.name && r.value.dtype == Some(S.Object)
      && r.value.description == Some(o.docstring) && r.value.definitions == []
      && r.value.schema.None? && r.value.id.None? && !r.value.additionalProperties
      && r.value.required == RequiredNames(o.attributes)
      && OrderedMaps.Valid(r.value.properties)
      && r.value.properties == OrderedMaps.InsertAll([], SomeEntries(TryMap(PropertyEntry, o.attributes).value)))
  {
    match TryMap(PropertyEntry, o.attributes)
    case Err(e, p) => Err(e, p)
    case Ok(entries) =>
      OrderedMaps.InsertAllValid([], SomeEntries(entries));
      Ok(S.SchemaObject(None, None, o.name, Some(S.Object), Some(o.docstring),
        OrderedMaps.InsertAll([], SomeEntries(entries)), [], RequiredNames(o.attributes), false))
  }

  /** Every attribute has a property under its name, converted from the
   *  last attribute of that name. */
  lemma SchemaObjectProperties(o: ObjectData, i: nat)
    requires SchemaObjectFromObject(o).Ok? && i < |o.attributes|
    ensures var props := SchemaObjectFromObject(o).value.properties;
      var name := o.attributes[i].name;
      OrderedMaps.Get(props, name).Some?
      && exists j :: (i <= j < |o.attributes| && o.attributes[j].name == name
        && OrderedMaps.Get(props, name).value == PropertyFromAttribute(o.attributes[j]).value)
  {
    var entries := TryMap(PropertyEntry, o.attributes).value;
    var es := SomeEntries(entries);
    var name := o.attributes[i].name;
    OrderedMaps.InsertAllGet([], es, name);
    assert es[i].Some? && es[i].value.0 == name;
    LastEntryAfter(es, name, i);
    var j :| i <= j < |es| && es[j] == Some((name, OrderedMaps.LastValue(es, name).value));
  }

  /** The last entry for a key comes no earlier than any entry for it. */
  lemma {:induction false} LastEntryAfter<V>(es: seq<Option<(string, V)>>, k: string, i: nat)
    requires i < |es| && es[i].Some? && es[i].value.0 == k
    ensures OrderedMaps.LastValue(es, k).Some?
    ensures exists j :: i <= j < |es| && es[j] == Some((k, OrderedMaps.LastValue(es, k).value))
    decreases |es|
  {
    var later := OrderedMaps.LastValue(es[1..], k);
    if later.Some? {
      OrderedMaps.LastValueSome(es[1..], k);
      var n :| 0 <= n < |es[1..]| && es[1..][n].Some? && es[1..][n].value.0 == k;
      LastEntryAfter(es[1..], k, if i == 0 then n else i - 1);
      var j :| (if i == 0 then n else i - 1) <= j < |es[1..]| && es[1..][j] == Some((k, later.value));
      assert es[j + 1] == es[1..][j];
    } else {
      assert i == 0 by {
        if i > 0 {
          assert es[1..][i - 1] == es[i];
          OrderedMaps.LastValueSome(es[1..], k);
        }
      }
    }
  }

  /** `TryFrom<&Enumeration> for EnumObject`: the mapped values in key
   *  order, typed as text. */
  function EnumObjectFromEnum(e: EnumData): (r: S.EnumObject)
    ensures r.title == e.name && r.dtype == Some(S.String) && r.description == Some(e.docstring)
    ensures |r.enumValues| == |e.mappings|
    ensures forall i :: 0 <= i < |e.mappings| ==> r.enumValues[i] == e.mappings[i].1
  {
    S.EnumObject(e.name, Some(S.String), Some(e.docstring), OrderedMaps.Values(e.mappings))
  }

  // ---------------------------------------------------------------------
  // Collecting the definitions a root object reaches
  // ---------------------------------------------------------------------

  /** The names `collect_definitions` has recorded in its two `HashSet`s,
   *  listed in the order they were first met. */
  datatype Used = Used(types: seq<string>, enums: seq<string>)

  function AttrDtypes(a: AttributeData): seq<string>
  {
    a.dtypes
  }

  /** The type names of all attributes of `o`, attribute by attribute. */
  function ObjectDtypes(o: ObjectData): seq<string>
  {
    Seqs.ConcatMap(AttrDtypes, o.attributes)
  }

  predicate IsBasic(d: string)
  {
    d in Validation.BasicTypes
  }

  function NotFound(d: string): string
  {
    "Object or enumeration " + d + " not found"
  }

  function ObjectNameSet(m: Model): set<string>
  {
    set n | n in ObjectNames(m.objects)
  }

  function UsedTypeSet(u: Used): set<string>
  {
    set t | t in u.types
  }

  /** `collect_definitions` as a walk over the type names still to visit,
   *  depth first: a basic or already recorded type is passed over, an object
   *  is recorded and its own types are visited next, an enumeration is
   *  recorded, and any other name fails. */
  function Collect(m: Model, pending: seq<string>, used: Used): (r: Result<Used>)
    decreases ObjectNameSet(m) - UsedTypeSet(used), |pending|
  {
    if pending == [] then Ok(used)
    else
      var d := pending[0];
      if IsBasic(d) || d in used.types then Collect(m, pending[1..], used)
      else
        match FindObject(m.objects, d)
        case Some(o) =>
          var used' := used.(types := used.types + [d]);
          assert UsedTypeSet(used') == UsedTypeSet(used) + {d};
          assert d in ObjectNameSet(m);
          Collect(m, ObjectDtypes(o) + pending[1..], used')
        case None =>
          match FindEnum(m.enums, d)
          case Some(e) =>
            Collect(m, pending[1..], used.(enums := if e.name in used.enums then used.enums else used.enums + [e.name]))
          case None => Err(NotFound(d))
  }

  /** The result of visiting `a` and then `b`: the outcome for `a`, then
   *  `b` from where `a` left off. */
  function Then(m: Model, first: Result<Used>, b: seq<string>): Result<Used>
  {
    match first
    case Err(e, p) => Err(e, p)
    case Ok(u) => Collect(m, b, u)
  }

  /** Visiting `a + b` is visiting `a`, then `b`. */
  lemma {:induction false} CollectAppend(m: Model, a: seq<string>, b: seq<string>, used: Used)
    ensures Collect(m, a + b, used) == Then(m, Collect(m, a, used), b)
    decreases ObjectNameSet(m) - UsedTypeSet(used), |a|
  {
    if a != [] {
      var d := a[0];
      assert (a + b)[0] == d && (a + b)[1..] == a[1..] + b;
      if IsBasic(d) || d in used.types {
        CollectAppend(m, a[1..], b, used);
      } else {
        match FindObject(m.objects, d)
        case Some(o) =>
          var used' := used.(types := used.types + [d]);
          assert UsedTypeSet(used') == UsedTypeSet(used) + {d};
          assert d in ObjectNameSet(m);
          assert ObjectDtypes(o) + (a[1..] + b) == (ObjectDtypes(o) + a[1..]) + b;
          CollectAppend(m, ObjectDtypes(o) + a[1..], b, used');
        case None =>
          match FindEnum(m.enums, d)
          case Some(e) =>
            CollectAppend(m, a[1..], b, used.(enums := if e.name in used.enums then used.enums else used.enums + [e.name]));
          case None =>
      }
    } else {
      assert a + b == b;
    }
  }

  /** A type name the recorded names account for. */
  predicate Covered(d: string, u: Used)
  {
    IsBasic(d) || d in u.types || d in u.enums
  }

  /** Recording only adds names: objects and enumerations of the model, each
   *  once. */
  lemma {:induction false} CollectGrows(m: Model, pending: seq<string>, used: Used)
    requires Seqs.Distinct(used.types) && Seqs.Distinct(used.enums)
    requires Collect(m, pending, used).Ok?
    ensures var u := Collect(m, pending, used).value;
      (forall t :: t in used.types ==> t in u.types)
      && (forall e :: e in used.enums ==> e in u.enums)
      && (forall t :: t in u.types ==> t in used.types || t in ObjectNames(m.objects))
      && (forall e :: e in u.enums ==> e in used.enums || (e in EnumNames(m.enums) && e !in ObjectNames(m.objects)))
      && Seqs.Distinct(u.types) && Seqs.Distinct(u.enums)
    decreases ObjectNameSet(m) - UsedTypeSet(used), |pending|
  {
    if pending != [] {
      var d := pending[0];
      if IsBasic(d) || d in used.types {
        CollectGrows(m, pending[1..], used);
      } else {
        match FindObject(m.objects, d)
        case Some(o) =>
          var used' := used.(types := used.types + [d]);
          assert UsedTypeSet(used') == UsedTypeSet(used) + {d};
          assert d in ObjectNameSet(m);
          Seqs.DistinctSnoc(used.types, d);
          CollectGrows(m, ObjectDtypes(o) + pending[1..], used');
        case None =>
          match FindEnum(m.enums, d)
          case Some(e) =>
            if e.name !in used.enums {
              Seqs.DistinctSnoc(used.enums, e.name);
            }
            CollectGrows(m, pending[1..], used.(enums := if e.name in used.enums then used.enums else used.enums + [e.name]));
          case None =>
      }
    }
  }

  /** Every type of every recorded object is accounted for, or still to be
   *  visited. */
  predicate ClosedBut(m: Model, u: Used, pending: seq<string>)
  {
    forall t :: t in u.types ==> (FindObject(m.objects, t).Some?
      && forall d :: d in ObjectDtypes(FindObject(m.objects, t).value) ==> Covered(d, u) || d in pending)
  }

  /** When the walk succeeds, every visited name is accounted for and the
   *  recorded objects are closed: each of their types is basic or recorded. */
  lemma {:induction false} CollectCloses(m: Model, pending: seq<string>, used: Used)
    requires Seqs.Distinct(used.types) && Seqs.Distinct(used.enums)
    requires ClosedBut(m, used, pending)
    requires Collect(m, pending, used).Ok?
    ensures var u := Collect(m, pending, used).value;
      ClosedBut(m, u, []) && forall d :: d in pending ==> Covered(d, u)
    decreases ObjectNameSet(m) - UsedTypeSet(used), |pending|
  {
    if pending != [] {
      var d := pending[0];
      var u := Collect(m, pending, used).value;
      if IsBasic(d) || d in used.types {
        CollectCloses(m, pending[1..], used);
        CollectGrows(m, pending[1..], used);
      } else {
        match FindObject(m.objects, d)
        case Some(o) =>
          var used' := used.(types := used.types + [d]);
          assert UsedTypeSet(used') == UsedTypeSet(used) + {d};
          assert d in ObjectNameSet(m);
          Seqs.DistinctSnoc(used.types, d);
          var pending' := ObjectDtypes(o) + pending[1..];
          CollectCloses(m, pending', used');
          CollectGrows(m, pending', used');
        case None =>
          match FindEnum(m.enums, d)
          case Some(e) =>
            var used' := used.(enums := if e.name in used.enums then used.enums else used.enums + [e.name]);
            if e.name !in used.enums {
              Seqs.DistinctSnoc(used.enums, e.name);
            }
            CollectCloses(m, pending[1..], used');
            CollectGrows(m, pending[1..], used');
          case None =>
      }
    }
  }

  /** The types of the attributes from position `i` on. */
  function DtypesFrom(attrs: seq<AttributeData>, i: nat): seq<string>
    requires i <= |attrs|
  {
    Seqs.ConcatMap(AttrDtypes, attrs[i..])
  }

  lemma DtypesFromStep(attrs: seq<AttributeData>, i: nat)
    requires i < |attrs|
    ensures DtypesFrom(attrs, i) == attrs[i].dtypes + DtypesFrom(attrs, i + 1)
  {
    Seqs.ConcatMapCons(AttrDtypes, attrs[i..]);
    assert attrs[i..][1..] == attrs[i + 1..];
  }

  /** The two `HashSet`s `collect_definitions` fills, shared by its
   *  recursive calls. */
  class DefinitionCollector {
    var used: Used

    constructor ()
      ensures used == Used([], [])
    {
      used := Used([], []);
    }

    /** `collect_definitions`: the attributes of `o` in order, each of their
     *  types in order, recursing into every object met for the first time. */
    method CollectDefinitions(o: ObjectData, m: Model) returns (r: Result<()>)
      modifies this
      ensures r == Discard(Collect(m, ObjectDtypes(o), old(used)))
      ensures r.Ok? ==> used == Collect(m, ObjectDtypes(o), old(used)).value
      ensures forall t :: t in old(used).types ==> t in used.types
      decreases ObjectNameSet(m) - UsedTypeSet(used), 1
    {
      var attrs := o.attributes;
      assert attrs[0..] == attrs;
      for i := 0 to |attrs|
        invariant Collect(m, DtypesFrom(attrs, i), used) == Collect(m, ObjectDtypes(o), old(used))
        invariant forall t :: t in old(used).types ==> t in used.types
      {
        DtypesFromStep(attrs, i);
        r := CollectDtypes(attrs[i].dtypes, DtypesFrom(attrs, i + 1), m);
        if r.Err? {
          return;
        }
      }
      assert attrs[|attrs|..] == [];
      return Ok(());
    }

    /** The inner loop of `collect_definitions`: the types of one attribute
     *  in order, before the types `rest` of the attributes after it. */
    method CollectDtypes(dtypes: seq<string>, ghost rest: seq<string>, m: Model) returns (r: Result<()>)
      modifies this
      ensures r.Err? ==> r == Discard(Collect(m, dtypes + rest, old(used)))
      ensures r.Ok? ==> Collect(m, rest, used) == Collect(m, dtypes + rest, old(used))
      ensures forall t :: t in old(used).types ==> t in used.types
      decreases ObjectNameSet(m) - UsedTypeSet(used), 0
    {
      assert dtypes[0..] == dtypes;
      for j := 0 to |dtypes|
        invariant Collect(m, dtypes[j..] + rest, used) == Collect(m, dtypes + rest, old(used))
        invariant forall t :: t in old(used).types ==> t in used.types
      {
        var d := dtypes[j];
        assert (dtypes[j..] + rest)[1..] == dtypes[j + 1..] + rest;
        if !(IsBasic(d) || d in used.types) {
          var found := FindObject(m.objects, d);
          var enumeration := FindEnum(m.enums, d);
          if found.Some? {
            ghost var before := used;
            used := used.(types := used.types + [d]);
            assert UsedTypeSet(used) == UsedTypeSet(before) + {d};
            assert d in ObjectNameSet(m);
            var nested := CollectDefinitions(found.value, m);
            CollectAppend(m, ObjectDtypes(found.value), dtypes[j + 1..] + rest, before.(types := before.types + [d]));
            if nested.Err? {
              return nested;
            }
          } else if enumeration.Some? {
            var name := enumeration.value.name;
            used := used.(enums := if name in used.enums then used.enums else used.enums + [name]);
          } else {
            return Err(NotFound(d));
          }
        }
      }
      assert dtypes[|dtypes|..] + rest == rest;
      return Ok(());
    }
  }

  // ---------------------------------------------------------------------
  // Definitions from the model
  // ---------------------------------------------------------------------

  type Definitions = OrderedMaps.OrderedMap<S.SchemaType>

  /** The recorded objects converted and inserted under their names. */
  function AddObjectDefinitions(m: Model, names: seq<string>, defs: Definitions): (r: Result<Definitions>)
    decreases |names|
  {
    if names == [] then Ok(defs)
    else
      match RetrieveObject(m, names[0])
      case Err(e, p) => Err(e, p)
      case Ok(o) =>
        match SchemaObjectFromObject(o)
        case Err(e, p) => Err(e, p)
        case Ok(so) => AddObjectDefinitions(m, names[1..], OrderedMaps.Insert(defs, names[0], S.ObjectSchema(so)))
  }

  /** The recorded enumerations converted and inserted under their names. */
  function AddEnumDefinitions(m: Model, names: seq<string>, defs: Definitions): (r: Result<Definitions>)
    decreases |names|
  {
    if names == [] then Ok(defs)
    else
      match RetrieveEnum(m, names[0])
      case Err(e, p) => Err(e, p)
      case Ok(en) => AddEnumDefinitions(m, names[1..], OrderedMaps.Insert(defs, names[0], S.EnumSchema(EnumObjectFromEnum(en))))
  }

  /** `collect_definitions_from_model`: objects first, then enumerations. */
  function DefinitionsFromModel(m: Model, used: Used): Result<Definitions>
  {
    match AddObjectDefinitions(m, used.types, [])
    case Err(e, p) => Err(e, p)
    case Ok(defs) => AddEnumDefinitions(m, used.enums, defs)
  }

  lemma {:induction false} AddObjectDefinitionsKeys(m: Model, names: seq<string>, defs: Definitions)
    requires OrderedMaps.Valid(defs) && AddObjectDefinitions(m, names, defs).Ok?
    ensures var r := AddObjectDefinitions(m, names, defs).value;
      OrderedMaps.Valid(r) && forall k :: k in OrderedMaps.Keys(r) <==> k in OrderedMaps.Keys(defs) || k in names
    decreases |names|
  {
    if names != [] {
      var o := RetrieveObject(m, names[0]).value;
      var so := SchemaObjectFromObject(o).value;
      OrderedMaps.InsertValid(defs, names[0], S.ObjectSchema(so));
      AddObjectDefinitionsKeys(m, names[1..], OrderedMaps.Insert(defs, names[0], S.ObjectSchema(so)));
      assert forall k :: k in names <==> k == names[0] || k in names[1..];
    }
  }

  lemma {:induction false} AddEnumDefinitionsKeys(m: Model, names: seq<string>, defs: Definitions)
    requires OrderedMaps.Valid(defs) && AddEnumDefinitions(m, names, defs).Ok?
    ensures var r := AddEnumDefinitions(m, names, defs).value;
      OrderedMaps.Valid(r) && forall k :: k in OrderedMaps.Keys(r) <==> k in OrderedMaps.Keys(defs) || k in names
    decreases |names|
  {
    if names != [] {
      var en := RetrieveEnum(m, names[0]).value;
      OrderedMaps.InsertValid(defs, names[0], S.EnumSchema(EnumObjectFromEnum(en)));
      AddEnumDefinitionsKeys(m, names[1..], OrderedMaps.Insert(defs, names[0], S.EnumSchema(EnumObjectFromEnum(en))));
      assert forall k :: k in names <==> k == names[0] || k in names[1..];
    }
  }

  /** The definitions are keyed by exactly the recorded names. */
  lemma DefinitionKeys(m: Model, used: Used)
    requires DefinitionsFromModel(m, used).Ok?
    ensures var defs := DefinitionsFromModel(m, used).value;
      OrderedMaps.Valid(defs)
      && forall k :: k in OrderedMaps.Keys(defs) <==> k in used.types || k in used.enums
  {
    AddObjectDefinitionsKeys(m, used.types, []);
    AddEnumDefinitionsKeys(m, used.enums, AddObjectDefinitions(m, used.types, []).value);
  }

  /** The two insertion loops of `collect_definitions_from_model`. */
  method CollectDefinitionsFromModel(m: Model, used: Used) returns (r: Result<Definitions>)
    ensures r == DefinitionsFromModel(m, used)
  {
    var defs: Definitions := [];
    for i := 0 to |used.types|
      invariant AddObjectDefinitions(m, used.types[i..], defs) == AddObjectDefinitions(m, used.types, [])
    {
      assert used.types[i..][1..] == used.types[i + 1..];
      var o := RetrieveObject(m, used.types[i]);
      if o.Err? {
        return Err(o.error, o.panicked);
      }
      var so := SchemaObjectFromObject(o.value);
      if so.Err? {
        return Err(so.error, so.panicked);
      }
      defs := OrderedMaps.Insert(defs, used.types[i], S.ObjectSchema(so.value));
    }
    assert used.types[|used.types|..] == [];
    for i := 0 to |used.enums|
      invariant AddEnumDefinitions(m, used.enums[i..], defs) == DefinitionsFromModel(m, used)
    {
      assert used.enums[i..][1..] == used.enums[i + 1..];
      var en := RetrieveEnum(m, used.enums[i]);
      if en.Err? {
        return Err(en.error, en.panicked);
      }
      defs := OrderedMaps.Insert(defs, used.enums[i], S.EnumSchema(EnumObjectFromEnum(en.value)));
    }
    assert used.enums[|used.enums|..] == [];
    return Ok(defs);
  }

  // ---------------------------------------------------------------------
  // Post-processing
  // ---------------------------------------------------------------------

  /** `split_once(':')`, or two empty parts when there is no ':'. */
  function SplitOnceColon(s: string): (r: (string, string))
    ensures ':' in s ==> s == r.0 + ":" + r.1 && ':' !in r.0
    ensures ':' !in s ==> r == ("", "")
  {
    if ':' in s then
      var i := Text.IndexOf(s, ':');
      assert s == s[..i] + ":" + s[i + 1..];
      (s[..i], s[i + 1..])
    else ("", "")
  }

  /** The first ':' splits a term, however many follow. */
  lemma SplitOnceAt(p: string, t: string)
    requires ':' !in p
    ensures SplitOnceColon(p + ":" + t) == (p, t)
  {
    var s := p + ":" + t;
    assert s[|p|] == ':';
    var i := Text.IndexOf(s, ':');
    assert forall k :: 0 <= k < |p| ==> s[k] == p[k];
    assert s[..i] == p && s[i + 1..] == t;
  }

  /** A term written "prefix:rest" whose prefix is known becomes the
   *  prefix's expansion followed by the rest; other terms stay as they are. */
  function ResolveTerm(term: Option<string>, prefixes: StringMap): (r: Option<string>)
    ensures term.None? ==> r.None?
  {
    if term.None? then None
    else
      var (prefix, rest) := SplitOnceColon(term.value);
      match Lookup(prefixes, prefix)
      case Some(expansion) => Some(expansion + rest)
      case None => term
  }

  /** A prefixed term is expanded; an unknown prefix leaves it alone. */
  lemma ResolvePrefixedTerm(prefix: string, rest: string, prefixes: StringMap)
    requires ':' !in prefix
    ensures Lookup(prefixes, prefix).Some? ==>
      ResolveTerm(Some(prefix + ":" + rest), prefixes) == Some(Lookup(prefixes, prefix).value + rest)
    ensures Lookup(prefixes, prefix).None? ==>
      ResolveTerm(Some(prefix + ":" + rest), prefixes) == Some(prefix + ":" + rest)
  {
    SplitOnceAt(prefix, rest);
  }

  /** A term without ':' is looked up under the empty prefix, and only an
   *  empty prefix key expands it (to that expansion alone). */
  lemma ResolveBareTerm(term: string, prefixes: StringMap)
    requires ':' !in term
    ensures ResolveTerm(Some(term), prefixes) ==
      if Lookup(prefixes, "").Some? then Some(Lookup(prefixes, "").value) else Some(term)
  {
    assert Lookup(prefixes, "").Some? ==> Lookup(prefixes, "").value + "" == Lookup(prefixes, "").value;
  }

  function ResolvedProperties(ps: seq<(string, S.Property)>, prefixes: StringMap): (r: seq<(string, S.Property)>)
    ensures |r| == |ps|
    ensures forall i :: 0 <= i < |ps| ==> r[i].0 == ps[i].0 && r[i].1 == ps[i].1.(term := ResolveTerm(ps[i].1.term, prefixes))
  {
    seq(|ps|, i requires 0 <= i < |ps| => (ps[i].0, ps[i].1.(term := ResolveTerm(ps[i].1.term, prefixes))))
  }

  function ClearedOptions(ps: seq<(string, S.Property)>): (r: seq<(string, S.Property)>)
    ensures |r| == |ps|
    ensures forall i :: 0 <= i < |ps| ==> r[i].0 == ps[i].0 && r[i].1 == ps[i].1.(options := [])
  {
    seq(|ps|, i requires 0 <= i < |ps| => (ps[i].0, ps[i].1.(options := [])))
  }

  /** Post-processing touches property values only: the keys stay. */
  lemma PostProcessingKeepsKeys(ps: seq<(string, S.Property)>, prefixes: StringMap)
    ensures OrderedMaps.Keys(ResolvedProperties(ps, prefixes)) == OrderedMaps.Keys(ps)
    ensures OrderedMaps.Keys(ClearedOptions(ps)) == OrderedMaps.Keys(ps)
    ensures OrderedMaps.Valid(ps) ==> OrderedMaps.Valid(ResolvedProperties(ps, prefixes)) && OrderedMaps.Valid(ClearedOptions(ps))
  {
  }

  /** `resolve_prefixes`: every property's term, in place. */
  method ResolvePrefixes(schema: S.SchemaObject, prefixes: StringMap) returns (r: S.SchemaObject)
    ensures r == schema.(properties := ResolvedProperties(schema.properties, prefixes))
  {
    var ps := schema.properties;
    for i := 0 to |ps|
      invariant |ps| == |schema.properties|
      invariant forall j :: 0 <= j < i ==> ps[j] == ResolvedProperties(schema.properties, prefixes)[j]
      invariant forall j :: i <= j < |ps| ==> ps[j] == schema.properties[j]
    {
      var (key, property) := ps[i];
      if property.term.Some? {
        var (prefix, rest) := SplitOnceColon(property.term.value);
        var expansion := Lookup(prefixes, prefix);
        if expansion.Some? {
          ps := ps[i := (key, property.(term := Some(expansion.value + rest)))];
        }
      }
    }
    r := schema.(properties := ps);
  }

  /** `remove_options`: every property's options emptied, in place. */
  method RemoveOptions(schema: S.SchemaObject) returns (r: S.SchemaObject)
    ensures r == schema.(properties := ClearedOptions(schema.properties))
  {
    var ps := schema.properties;
    for i := 0 to |ps|
      invariant |ps| == |schema.properties|
      invariant forall j :: 0 <= j < i ==> ps[j] == ClearedOptions(schema.properties)[j]
      invariant forall j :: i <= j < |ps| ==> ps[j] == schema.properties[j]
    {
      ps := ps[i := (ps[i].0, ps[i].1.(options := []))];
    }
    r := schema.(properties := ps);
  }

  /** `post_process_object`: prefixes resolved when the front matter has
   *  any, options removed for OpenAI. */
  function PostProcessedObject(o: S.SchemaObject, config: FrontMatter, openai: bool): (r: S.SchemaObject)
    ensures r.title == o.title && r.definitions == o.definitions && r.required == o.required
    ensures OrderedMaps.Keys(r.properties) == OrderedMaps.Keys(o.properties)
    ensures openai ==> forall i :: 0 <= i < |r.properties| ==> r.properties[i].1.options == []
    ensures !openai && config.prefixes.None? ==> r == o
  {
    var resolved :=
      if config.prefixes.Some? then
        PostProcessingKeepsKeys(o.properties, config.prefixes.value);
        o.(properties := ResolvedProperties(o.properties, config.prefixes.value))
      else o;
    PostProcessingKeepsKeys(resolved.properties, []);
    if openai then resolved.(properties := ClearedOptions(resolved.properties)) else resolved
  }

  method PostProcessObject(o: S.SchemaObject, config: FrontMatter, openai: bool) returns (r: S.SchemaObject)
    ensures r == PostProcessedObject(o, config, openai)
  {
    r := o;
    if config.prefixes.Some? {
      r := ResolvePrefixes(r, config.prefixes.value);
    }
    if openai {
      r := RemoveOptions(r);
    }
  }

  function PostProcessedDefinition(d: S.SchemaType, config: FrontMatter, openai: bool): S.SchemaType
  {
    match d
    case ObjectSchema(o) => S.ObjectSchema(PostProcessedObject(o, config, openai))
    case EnumSchema(_) => d
  }

  function PostProcessedDefinitions(defs: Definitions, config: FrontMatter, openai: bool): (r: Definitions)
    ensures OrderedMaps.Keys(r) == OrderedMaps.Keys(defs)
    ensures forall i :: 0 <= i < |defs| ==> r[i].1 == PostProcessedDefinition(defs[i].1, config, openai)
  {
    seq(|defs|, i requires 0 <= i < |defs| => (defs[i].0, PostProcessedDefinition(defs[i].1, config, openai)))
  }

  /** `post_process_schema`: the id is the repository; the root and every
   *  object definition are post-processed, enumerations are not. */
  function PostProcessedSchema(s: S.SchemaObject, config: FrontMatter, openai: bool): (r: S.SchemaObject)
    ensures r.id == Some(config.repo) && r.title == s.title && r.schema == s.schema
    ensures OrderedMaps.Keys(r.definitions) == OrderedMaps.Keys(s.definitions)
    ensures OrderedMaps.Keys(r.properties) == OrderedMaps.Keys(s.properties)
  {
    var root := PostProcessedObject(s.(id := Some(config.repo)), config, openai);
    root.(definitions := PostProcessedDefinitions(s.definitions, config, openai))
  }

  method PostProcessSchema(s: S.SchemaObject, config: FrontMatter, openai: bool) returns (r: S.SchemaObject)
    ensures r == PostProcessedSchema(s, config, openai)
  {
    r := s.(id := Some(config.repo));
    r := PostProcessObject(r, config, openai);
    var defs := r.definitions;
    for i := 0 to |defs|
      invariant |defs| == |s.definitions|
      invariant forall j :: 0 <= j < i ==> defs[j] == PostProcessedDefinitions(s.definitions, config, openai)[j]
      invariant forall j :: i <= j < |defs| ==> defs[j] == s.definitions[j]
    {
      if defs[i].1.ObjectSchema? {
        var processed := PostProcessObject(defs[i].1.obj, config, openai);
        defs := defs[i := (defs[i].0, S.ObjectSchema(processed))];
      }
    }
    r := r.(definitions := defs);
  }

  // ---------------------------------------------------------------------
  // The schema
  // ---------------------------------------------------------------------

  /** `to_json_schema`: the root object as the schema, the definitions it
   *  reaches under "$defs", post-processed when the model has a front
   *  matter. */
  function ToJsonSchema(m: Model, root: string, openai: bool): Result<S.SchemaObject>
  {
    match RetrieveObject(m, root)
    case Err(e, p) => Err(e, p)
    case Ok(rootObject) =>
      match SchemaObjectFromObject(rootObject)
      case Err(e, p) => Err(e, p)
      case Ok(schema) =>
        match Collect(m, ObjectDtypes(rootObject), Used([], []))
        case Err(e, p) => Err(e, p)
        case Ok(used) =>
          match DefinitionsFromModel(m, used)
          case Err(e, p) => Err(e, p)
          case Ok(defs) =>
            var s := schema.(schema := Some(SchemaUri), definitions := defs);
            Ok(if m.config.Some? then PostProcessedSchema(s, m.config.value, openai) else s)
  }

  /** `to_json_schema` as the source runs it, with the collector's sets
   *  filled by the recursive walk. */
  method ExportSchema(m: Model, root: string, openai: bool) returns (r: Result<S.SchemaObject>)
    ensures r == ToJsonSchema(m, root, openai)
  {
    var rootObject := RetrieveObject(m, root);
    if rootObject.Err? {
      return Err(rootObject.error, rootObject.panicked);
    }
    var schema := SchemaObjectFromObject(rootObject.value);
    if schema.Err? {
      return Err(schema.error, schema.panicked);
    }
    var collector := new DefinitionCollector();
    var collected := collector.CollectDefinitions(rootObject.value, m);
    if collected.Err? {
      return Err(collected.error, collected.panicked);
    }
    var defs := CollectDefinitionsFromModel(m, collector.used);
    if defs.Err? {
      return Err(defs.error, defs.panicked);
    }
    var s := schema.value.(schema := Some(SchemaUri), definitions := defs.value);
    if m.config.Some? {
      s := PostProcessSchema(s, m.config.value, openai);
    }
    return Ok(s);
  }

  /** The exported schema is self-contained: it is titled by the root and
   *  declares the draft it follows; every type the root object uses is a
   *  basic type or has a definition; every definition is an object or an
   *  enumeration of the model; and every object with a definition uses only
   *  basic or defined types. */
  lemma {:induction false} ToJsonSchemaClosed(m: Model, root: string, openai: bool)
    requires ToJsonSchema(m, root, openai).Ok?
    ensures var s := ToJsonSchema(m, root, openai).value;
      var keys := OrderedMaps.Keys(s.definitions);
      s.title == root && s.schema == Some(SchemaUri)
      && OrderedMaps.Valid(s.definitions)
      && FindObject(m.objects, root).Some?
      && (forall d :: d in ObjectDtypes(FindObject(m.objects, root).value) ==> IsBasic(d) || d in keys)
      && (forall k :: k in keys ==> k in ObjectNames(m.objects) || k in EnumNames(m.enums))
      && (forall k :: k in keys && FindObject(m.objects, k).Some? ==>
            forall d :: d in ObjectDtypes(FindObject(m.objects, k).value) ==> IsBasic(d) || d in keys)
  {
    var rootObject := RetrieveObject(m, root).value;
    var schema := SchemaObjectFromObject(rootObject).value;
    var pending := ObjectDtypes(rootObject);
    var used := Collect(m, pending, Used([], [])).value;
    var defs := DefinitionsFromModel(m, used).value;
    CollectGrows(m, pending, Used([], []));
    CollectCloses(m, pending, Used([], []));
    DefinitionKeys(m, used);
    var s0 := schema.(schema := Some(SchemaUri), definitions := defs);
    var s := ToJsonSchema(m, root, openai).value;
    assert OrderedMaps.Keys(s.definitions) == OrderedMaps.Keys(defs) && OrderedMaps.Valid(s.definitions) by {
      if m.config.Some? {
        var config := m.config.value;
        assert s == PostProcessedSchema(s0, config, openai);
        assert s.definitions == PostProcessedDefinitions(defs, config, openai);
        assert forall i :: 0 <= i < |defs| ==> s.definitions[i].0 == OrderedMaps.Keys(defs)[i] == defs[i].0;
      }
    }
  }

  // ---------------------------------------------------------------------
  // Exporting an attribute and importing it back
  // ---------------------------------------------------------------------

  /** What the import reads back for a type name the export wrote: the type
   *  itself, or a reference to its definition. */
  function DtypeSource(d: string): string
  {
    if S.IsTypeName(d) then S.Show(S.FromStr(d).value) else DefsPrefix + d
  }

  function DtypeSources(ds: seq<string>): (r: seq<string>)
    ensures |r| == |ds| && forall i :: 0 <= i < |ds| ==> r[i] == DtypeSource(ds[i])
  {
    seq(|ds|, i requires 0 <= i < |ds| => DtypeSource(ds[i]))
  }

  /** A type name that survives the trip: non-empty, without '/', neither a
   *  container type nor the "float" alias of "number". */
  predicate Portable(d: string)
  {
    d != [] && '/' !in d && d != "object" && d != "array" && d != "float"
  }

  lemma PortableSource(d: string)
    requires Portable(d)
    ensures JsonImport.ExtractReference(DtypeSource(d)) == Ok(d)
  {
    if S.IsTypeName(d) {
      Text.LastPieceWhole(d, '/');
    } else {
      JsonImport.ExtractDefinitionReference(d);
    }
  }

  /** The leaves of processed type names are their sources, in order. */
  lemma {:induction false} ProcessedSources(items: seq<S.Item>, ds: seq<string>)
    requires |items| == |ds| && forall i :: 0 <= i < |ds| ==> items[i] == ProcessDtype(ds[i])
    ensures S.GetTypesAll(items) == DtypeSources(ds)
    decreases |ds|
  {
    if ds != [] {
      ProcessedSources(items[1..], ds[1..]);
      assert DtypeSources(ds) == [DtypeSource(ds[0])] + DtypeSources(ds[1..]);
    }
  }

  lemma PortableSources(ds: seq<string>)
    requires forall d :: d in ds ==> Portable(d)
    ensures TryMap(JsonImport.ExtractReference, DtypeSources(ds)) == Ok(ds)
  {
    forall i | 0 <= i < |ds| ensures JsonImport.ExtractReference(DtypeSources(ds)[i]) == Ok(ds[i]) {
      PortableSource(ds[i]);
    }
    TryMapAllOk(JsonImport.ExtractReference, DtypeSources(ds), ds);
  }

  /** An attribute the schema can carry: not an enumeration, with distinct
   *  portable types, and none of the facets the schema keeps elsewhere
   *  (required names) or drops (identifier flag, default, XML, position). */
  predicate RoundTrips(a: AttributeData)
  {
    !a.isEnum && a.dtypes != [] && Seqs.Distinct(a.dtypes) && (forall d :: d in a.dtypes ==> Portable(d))
    && a.options == [] && !a.required && !a.isId
    && a.defaultValue.None? && a.xml.None? && a.position.None? && a.importPrefix.None?
  }

  /** The property exported for an attribute the schema can carry, written
   *  out field by field. */
  function ExportedProperty(a: AttributeData): S.Property
    requires a.dtypes != []
  {
    var d := a.dtypes[0];
    S.Property(
      Some(a.name),
      if a.isArray then Some(S.Array) else if |a.dtypes| == 1 then Some(S.FromName(d).value) else None,
      None,
      if a.docstring != [] then Some(a.docstring) else None,
      a.term,
      if !a.isArray && NamesObject(d) then Some(DefsPrefix + d) else None,
      [],
      if !a.isArray then None else if |a.dtypes| == 1 then Some(ProcessDtype(d)) else Some(S.OneOfItem(OneOfItems(a.dtypes))),
      if !a.isArray then Some(OneOfItems(a.dtypes)) else None,
      None, None, None)
  }

  lemma ExportedShape(a: AttributeData)
    requires RoundTrips(a)
    ensures PropertyFromAttribute(a) == Ok(ExportedProperty(a))
  {
    assert OptionsMap([]) == [] by {
      assert OptionEntries([]) == [];
    }
  }

  /** The types of an exported array attribute resolve back to its types. */
  lemma ArrayTypesRoundTrip(a: AttributeData)
    requires RoundTrips(a) && a.isArray
    ensures JsonImport.TypeSources(ExportedProperty(a)) == DtypeSources(a.dtypes)
  {
    var ds := a.dtypes;
    if |ds| != 1 {
      ProcessedSources(OneOfItems(ds), ds);
    }
  }

  lemma SingleTypeSources(a: AttributeData)
    requires RoundTrips(a) && !a.isArray && |a.dtypes| == 1
    ensures JsonImport.TypeSources(ExportedProperty(a)) ==
      if S.IsTypeName(a.dtypes[0]) then DtypeSources(a.dtypes) else ["object", DefsPrefix + a.dtypes[0]]
  {
    var d := a.dtypes[0];
    var p := ExportedProperty(a);
    assert OneOfItems(a.dtypes) == [];
    assert S.GetTypesAll([]) == [];
    assert d in a.dtypes;
    if S.IsTypeName(d) {
      assert p.dtype == Some(S.FromStr(d).value) && p.reference.None?;
      assert !JsonImport.IsArrayProperty(p);
    } else {
      assert p.dtype == Some(S.Object) && p.reference == Some(DefsPrefix + d);
    }
  }

  lemma ManyTypesSources(a: AttributeData)
    requires RoundTrips(a) && !a.isArray && |a.dtypes| > 1
    ensures JsonImport.TypeSources(ExportedProperty(a)) ==
      (if NamesObject(a.dtypes[0]) then [DefsPrefix + a.dtypes[0]] else []) + DtypeSources(a.dtypes)
  {
    ProcessedSources(OneOfItems(a.dtypes), a.dtypes);
  }

  lemma ResolveUnfold(sources: seq<string>, extracted: seq<string>)
    requires TryMap(JsonImport.ExtractReference, sources) == Ok(extracted)
    ensures JsonImport.ResolveTypes(sources) == Ok(Seqs.Dedup(Seqs.Filter(JsonImport.Kept, extracted)))
  {
  }

  /** Portable types are all kept, and each once. */
  lemma KeptOnce(ds: seq<string>)
    requires Seqs.Distinct(ds) && forall d :: d in ds ==> Portable(d)
    ensures Seqs.Dedup(Seqs.Filter(JsonImport.Kept, ds)) == ds
  {
    assert forall i :: 0 <= i < |ds| ==> ds[i] in ds;
    Seqs.FilterKeepsAll(JsonImport.Kept, ds);
    Seqs.DedupDistinct(ds);
  }

  /** A defined type is exported as "object" and a reference to it. */
  lemma ObjectAndReference(d: string)
    requires Portable(d)
    ensures TryMap(JsonImport.ExtractReference, ["object", DefsPrefix + d]) == Ok(["object", d])
  {
    var xs := ["object", DefsPrefix + d];
    var ys := ["object", d];
    JsonImport.ExtractDefinitionReference(d);
    ObjectIsItsOwnReference();
    assert JsonImport.ExtractReference(xs[0]) == Ok(ys[0]);
    assert JsonImport.ExtractReference(xs[1]) == Ok(ys[1]);
    TryMapAllOk(JsonImport.ExtractReference, xs, ys);
  }

  /** "object" holds no separator, so it reads as itself. */
  lemma ObjectIsItsOwnReference()
    ensures JsonImport.ExtractReference("object") == Ok("object")
  {
    Text.LastPieceWhole("object", '/');
  }

  /** Types written as themselves or as references resolve to themselves. */
  lemma ResolvesPlain(ds: seq<string>)
    requires Seqs.Distinct(ds) && forall d :: d in ds ==> Portable(d)
    ensures JsonImport.ResolveTypes(DtypeSources(ds)) == Ok(ds)
  {
    PortableSources(ds);
    ResolveUnfold(DtypeSources(ds), ds);
    KeptOnce(ds);
  }

  /** "object" next to a reference resolves to the referenced type alone. */
  lemma ResolvesObject(d: string)
    requires Portable(d)
    ensures JsonImport.ResolveTypes(["object", DefsPrefix + d]) == Ok([d])
  {
    ObjectAndReference(d);
    ResolveUnfold(["object", DefsPrefix + d], ["object", d]);
    assert ["object", d][1..] == [d];
    assert Seqs.Filter(JsonImport.Kept, ["object", d]) == [d];
    KeptOnce([d]);
  }

  /** A reference to the first type in front of the types changes nothing. */
  lemma ResolvesRepeated(ds: seq<string>)
    requires ds != [] && Seqs.Distinct(ds) && forall d :: d in ds ==> Portable(d)
    requires !S.IsTypeName(ds[0])
    ensures JsonImport.ResolveTypes([DefsPrefix + ds[0]] + DtypeSources(ds)) == Ok(ds)
  {
    var sources := [DefsPrefix + ds[0]] + DtypeSources(ds);
    var extracted := [ds[0]] + ds;
    PortableSources(ds);
    assert ds[0] in ds;
    JsonImport.ExtractDefinitionReference(ds[0]);
    TryMapCons(JsonImport.ExtractReference, DefsPrefix + ds[0], DtypeSources(ds), ds);
    ResolveUnfold(sources, extracted);
    KeptRepeated(ds);
  }

  /** Portable types with the first one repeated in front are all kept, and
   *  the repetition is dropped. */
  lemma KeptRepeated(ds: seq<string>)
    requires ds != [] && Seqs.Distinct(ds) && forall d :: d in ds ==> Portable(d)
    ensures Seqs.Dedup(Seqs.Filter(JsonImport.Kept, [ds[0]] + ds)) == ds
  {
    var extracted := [ds[0]] + ds;
    assert forall i :: 0 <= i < |extracted| ==> extracted[i] in ds;
    Seqs.FilterKeepsAll(JsonImport.Kept, extracted);
    Seqs.DedupRepeatFirst(ds);
    Seqs.DedupDistinct(ds);
  }

  /** The types of an exported attribute with one type resolve back to it;
   *  a defined type arrives both as "object" and as a reference. */
  lemma SingleTypeRoundTrip(a: AttributeData)
    requires RoundTrips(a) && !a.isArray && |a.dtypes| == 1
    ensures JsonImport.ResolveTypes(JsonImport.TypeSources(ExportedProperty(a))) == Ok(a.dtypes)
  {
    SingleTypeSources(a);
    assert a.dtypes == [a.dtypes[0]] && a.dtypes[0] in a.dtypes;
    if S.IsTypeName(a.dtypes[0]) {
      ResolvesPlain(a.dtypes);
    } else {
      ResolvesObject(a.dtypes[0]);
    }
  }

  /** The types of an exported attribute with several types resolve back to
   *  them; a defined first type arrives twice, once as the reference. */
  lemma ManyTypesRoundTrip(a: AttributeData)
    requires RoundTrips(a) && !a.isArray && |a.dtypes| > 1
    ensures JsonImport.ResolveTypes(JsonImport.TypeSources(ExportedProperty(a))) == Ok(a.dtypes)
  {
    ManyTypesSources(a);
    assert a.dtypes[0] in a.dtypes;
    if NamesObject(a.dtypes[0]) {
      ResolvesRepeated(a.dtypes);
    } else {
      assert [] + DtypeSources(a.dtypes) == DtypeSources(a.dtypes);
      ResolvesPlain(a.dtypes);
    }
  }

  /** Exporting such an attribute as a property and importing the property
   *  gives the attribute back, array or not, with one type or several. */
  lemma AttributeRoundTrip(a: AttributeData)
    requires RoundTrips(a)
    ensures PropertyFromAttribute(a).Ok?
    ensures JsonImport.AttributeFromProperty(PropertyFromAttribute(a).value) == Ok(a)
  {
    ExportedShape(a);
    var ds := a.dtypes;
    if a.isArray {
      ArrayTypesRoundTrip(a);
      ResolvesPlain(ds);
    } else if |ds| == 1 {
      SingleTypeRoundTrip(a);
    } else {
      ManyTypesRoundTrip(a);
    }
  }
}
