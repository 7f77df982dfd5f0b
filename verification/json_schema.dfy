/** The JSON Schema records the converters read and write: schema objects,
 *  enumeration objects, properties, items and their type names. */
module JsonSchema {
  import opened Wrappers
  import Text
  import Numbers
  import Attributes

  // ---------------------------------------------------------------------
  // Type names
  // ---------------------------------------------------------------------

  datatype DataType =
    | String
    | Integer
    | Number
    | Boolean
    | Object
    | Array
    | Null
    | Multiple(types: seq<DataType>)

  /** The seven names `from_str` accepts; "float" is read as a number. */
  predicate IsTypeName(s: string)
  {
    s in {"string", "number", "float", "integer", "boolean", "object", "array"}
  }

  /** `DataType::from_str`. */
  function FromStr(s: string): (r: Result<DataType>)
    ensures r.Ok? <==> IsTypeName(s)
    ensures r.Ok? ==> !r.value.Null? && !r.value.Multiple?
    ensures s == "float" ==> r == Ok(Number)
    ensures r.Err? ==> r == Err("Invalid data type: " + s)
  {
    match s
    case "string" => Ok(String)
    case "number" => Ok(Number)
    case "float" => Ok(Number)
    case "integer" => Ok(Integer)
    case "boolean" => Ok(Boolean)
    case "object" => Ok(Object)
    case "array" => Ok(Array)
    case _ => Err("Invalid data type: " + s)
  }

  /** `Display for DataType`; a `Multiple` lists its members. */
  function Show(d: DataType): string
    decreases d
  {
    match d
    case String => "string"
    case Number => "number"
    case Integer => "integer"
    case Boolean => "boolean"
    case Object => "object"
    case Array => "array"
    case Null => "null"
    case Multiple(types) => "multiple(" + Text.Join(ShowAll(types), ", ") + ")"
  }

  function ShowAll(types: seq<DataType>): (r: seq<string>)
    ensures |r| == |types|
    decreases types
  {
    if types == [] then [] else [Show(types[0])] + ShowAll(types[1..])
  }

  /** Reading back the name of every single type gives it back; `Null` and
   *  `Multiple` have no name `from_str` reads. */
  lemma FromStrShow(d: DataType)
    ensures !d.Null? && !d.Multiple? ==> FromStr(Show(d)) == Ok(d)
    ensures d.Null? || d.Multiple? ==> FromStr(Show(d)).Err?
  {
    if d.Multiple? {
      MultipleNameUnknown(d);
    }
  }

  /** The name of a `Multiple` is no name `from_str` knows. */
  lemma MultipleNameUnknown(d: DataType)
    requires d.Multiple?
    ensures !IsTypeName(Show(d))
  {
    var s := Show(d);
    assert s[..9] == "multiple(";
    assert s != "string" && s != "number" && s != "float" && s != "integer";
    assert s != "boolean" && s != "object" && s != "array" by {
      assert |s| > 9;
    }
  }

  /** `TryFrom<&String> for DataType`: every name converts, and a name
   *  `from_str` does not know is taken for an object. */
  function FromName(s: string): (r: Result<DataType>)
    ensures r.Ok?
    ensures IsTypeName(s) ==> r == FromStr(s)
    ensures !IsTypeName(s) ==> r.value == Object
  {
    match s
    case "string" => Ok(String)
    case "number" => Ok(Number)
    case "integer" => Ok(Integer)
    case "boolean" => Ok(Boolean)
    case "array" => Ok(Array)
    case "float" => Ok(Number)
    case _ => Ok(Object)
  }

  // ---------------------------------------------------------------------
  // Items
  // ---------------------------------------------------------------------

  /** The schema of array elements and of `oneOf`/`anyOf` alternatives. */
  datatype Item =
    | ReferenceItem(reference: string)
    | OneOfItem(oneOf: seq<Item>)
    | AnyOfItem(anyOf: seq<Item>)
    | DataTypeItem(dtype: DataType)

  /** `Item::get_types`: the references and type names at the leaves, left
   *  to right. */
  function GetTypes(i: Item): seq<string>
    decreases i
  {
    match i
    case ReferenceItem(reference) => [reference]
    case OneOfItem(items) => GetTypesAll(items)
    case AnyOfItem(items) => GetTypesAll(items)
    case DataTypeItem(dtype) => [Show(dtype)]
  }

  function GetTypesAll(items: seq<Item>): seq<string>
    decreases items
  {
    if items == [] then [] else GetTypes(items[0]) + GetTypesAll(items[1..])
  }

  /** A leaf of `i` names `t`: a reference to `t`, or a data type shown as `t`. */
  predicate Names(i: Item, t: string)
  {
    match i
    case ReferenceItem(reference) => reference == t
    case DataTypeItem(dtype) => Show(dtype) == t
    case OneOfItem(items) => exists j :: 0 <= j < |items| && Names(items[j], t)
    case AnyOfItem(items) => exists j :: 0 <= j < |items| && Names(items[j], t)
  }

  /** `get_types` lists exactly the names of the leaves. */
  lemma {:induction false} GetTypesNames(i: Item, t: string)
    ensures t in GetTypes(i) <==> Names(i, t)
    decreases i
  {
    match i
    case ReferenceItem(_) =>
    case DataTypeItem(_) =>
    case OneOfItem(items) => GetTypesAllNames(items, t);
    case AnyOfItem(items) => GetTypesAllNames(items, t);
  }

  lemma {:induction false} GetTypesAllNames(items: seq<Item>, t: string)
    ensures t in GetTypesAll(items) <==> exists j :: 0 <= j < |items| && Names(items[j], t)
    decreases items
  {
    if items != [] {
      GetTypesNames(items[0], t);
      GetTypesAllNames(items[1..], t);
      assert forall j :: 1 <= j < |items| ==> items[j] == items[1..][j - 1];
      if Names(items[0], t) {
        assert exists j :: 0 <= j < |items| && Names(items[j], t);
      }
      if exists j :: 0 <= j < |items| && Names(items[j], t) {
        var j :| 0 <= j < |items| && Names(items[j], t);
        if j > 0 {
          assert Names(items[1..][j - 1], t);
        }
      }
    }
  }

  /** `oneOf` and `anyOf` alternatives contribute alike, and a group's
   *  types are those of its alternatives one after the other. */
  lemma {:induction false} GetTypesAppend(a: seq<Item>, b: seq<Item>)
    ensures GetTypes(OneOfItem(a + b)) == GetTypes(AnyOfItem(a + b))
    ensures GetTypesAll(a + b) == GetTypesAll(a) + GetTypesAll(b)
    decreases |a|
  {
    if a == [] {
      assert a + b == b;
    } else {
      assert (a + b)[1..] == a[1..] + b;
      assert (a + b)[0] == a[0];
      GetTypesAppend(a[1..], b);
    }
  }

  // ---------------------------------------------------------------------
  // Primitive values
  // ---------------------------------------------------------------------

  /** A default value or an option value inside a schema. */
  datatype PrimitiveType =
    | PString(text: string)
    | PNumber(number: Numbers.F64)
    | PInteger(integer: int)
    | PBoolean(flag: bool)

  /** `From<&String> for PrimitiveType`: a float literal first, then a
   *  boolean in any case, then an integer, and anything else as text. Every
   *  integer literal is also a float literal, so the integer branch is never
   *  taken. */
  function PrimitiveFromString(s: string): (r: PrimitiveType)
    ensures r.PNumber? <==> Numbers.IsFloatLiteral(s)
    ensures r.PNumber? ==> r.number == s
    ensures r.PBoolean? <==> !Numbers.IsFloatLiteral(s) && Text.ToLower(s) in {"true", "false"}
    ensures r.PBoolean? ==> (r.flag <==> Text.ToLower(s) == "true")
    ensures !r.PInteger?
    ensures r.PString? ==> r.text == s
  {
    var f := Numbers.ParseF64(s);
    if f.Some? then PNumber(f.value)
    else
      var b := Numbers.ParseBool(Text.ToLower(s));
      if b.Some? then PBoolean(b.value)
      else
        var i := Numbers.ParseI64(s);
        if i.Some? then
          Numbers.EveryIntegerIsAFloatLiteral(s);
          assert false;
          PInteger(0)
        else PString(s)
  }

  /** `Display for PrimitiveType`. */
  function ShowPrimitive(p: PrimitiveType): string
  {
    match p
    case PString(s) => s
    case PNumber(n) => Numbers.ShowF64(n)
    case PInteger(i) => Numbers.ShowInt(i)
    case PBoolean(b) => Numbers.ShowBool(b)
  }

  /** Numbers and booleans survive being shown and read back. */
  lemma PrimitiveRoundTrip(p: PrimitiveType)
    requires p.PNumber? || p.PBoolean?
    ensures PrimitiveFromString(ShowPrimitive(p)) == p
  {
    if p.PBoolean? {
      var s := ShowPrimitive(p);
      NotAFloat(s);
      assert Text.ToLower(s) == s by { Text.ToLowerIdempotent(s); }
    }
  }

  /** "true" and "false" are not float literals. */
  lemma NotAFloat(s: string)
    requires s == "true" || s == "false"
    ensures !Numbers.IsFloatLiteral(s)
  {
    assert Text.ToLower(s) == s;
    var m := Numbers.ExponentStart(s);
    assert s[0] != 'e' && s[0] != 'E';
    assert m > 0;
    assert !Text.IsDigit(s[0]);
    assert s[..m][0] == s[0];
  }

  /** `From<attribute::DataType> for PrimitiveType`: text loses its
   *  surrounding quotes, every other value is carried over. */
  function FromAttributeValue(d: Attributes.DataType): (r: PrimitiveType)
    ensures d.String? <==> r.PString?
    ensures d.String? ==> r.text == Text.TrimMatches(d.text, '"')
    ensures d.Integer? ==> r == PInteger(d.number)
    ensures d.Float? ==> r == PNumber(d.value)
    ensures d.Boolean? ==> r == PBoolean(d.flag)
  {
    match d
    case String(s) => PString(Text.TrimMatches(s, '"'))
    case Integer(i) => PInteger(i)
    case Float(f) => PNumber(f)
    case Boolean(b) => PBoolean(b)
  }

  /** A quoted text without quotes at its own ends comes out unquoted. */
  lemma {:induction false} UnquoteText(s: string)
    requires s == [] || (s[0] != '"' && s[|s| - 1] != '"')
    ensures FromAttributeValue(Attributes.String("\"" + s + "\"")) == PString(s)
  {
    var q := "\"" + s + "\"";
    var t := s + "\"";
    assert q[1..] == t;
    assert Text.TrimMatches(q, '"') == Text.TrimMatches(t, '"');
    if s == [] {
      assert t[1..] == [];
    } else {
      assert t[..|t| - 1] == s;
      assert Text.TrimMatches(t, '"') == Text.TrimMatches(s, '"');
    }
  }

  /** `skip_empty`: an absent or empty list is not written. */
  predicate SkipEmpty<T>(o: Option<seq<T>>)
  {
    match o
    case Some(v) => |v| == 0
    case None => true
  }

  /** `skip_empty_string`: an absent or empty text is not written. */
  predicate SkipEmptyString(o: Option<string>)
  {
    match o
    case Some(v) => |v| == 0
    case None => true
  }

  /** Only a present, non-empty value is written. */
  lemma SkipEmptyIff<T>(o: Option<seq<T>>, s: Option<string>)
    ensures !SkipEmpty(o) <==> o.Some? && o.value != []
    ensures !SkipEmptyString(s) <==> s.Some? && s.value != ""
  {
  }

  // ---------------------------------------------------------------------
  // Records
  // ---------------------------------------------------------------------

  /** `Property`; its flattened extra keys are a `HashMap`, listed here in
   *  iteration order. */
  datatype Property = Property(
    title: Option<string>,
    dtype: Option<DataType>,
    defaultValue: Option<PrimitiveType>,
    description: Option<string>,
    term: Option<string>,
    reference: Option<string>,
    options: seq<(string, PrimitiveType)>,
    items: Option<Item>,
    oneOf: Option<seq<Item>>,
    anyOf: Option<seq<Item>>,
    allOf: Option<seq<Item>>,
    enumValues: Option<seq<string>>)

  /** `EnumObject`. */
  datatype EnumObject = EnumObject(
    title: string,
    dtype: Option<DataType>,
    description: Option<string>,
    enumValues: seq<string>)

  /** `SchemaObject`; `properties` and `definitions` are `BTreeMap`s, kept in
   *  ascending key order. */
  datatype SchemaObject = SchemaObject(
    schema: Option<string>,
    id: Option<string>,
    title: string,
    dtype: Option<DataType>,
    description: Option<string>,
    properties: seq<(string, Property)>,
    definitions: seq<(string, SchemaType)>,
    required: seq<string>,
    additionalProperties: bool)

  /** `SchemaType`: a definition is an object or an enumeration. */
  datatype SchemaType =
    | ObjectSchema(obj: SchemaObject)
    | EnumSchema(enumeration: EnumObject)
}
