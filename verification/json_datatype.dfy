/** The type of a property of a JSON schema read without a schema model:
 *  a basic type, an inline object or enumeration, or a reference. */
module JsonDataTypes {
  import opened Wrappers
  import opened JsonValues
  import Text

  datatype DataType =
    | String
    | Integer
    | Number
    | Boolean
    | Object(properties: Json)
    | Array
    | Enum(values: seq<string>)
    | Reference(reference: string)

  /** The five type names `from_str` accepts, and nothing else. */
  predicate IsBasicName(s: string)
  {
    s == "string" || s == "integer" || s == "number" || s == "boolean" || s == "array"
  }

  function UnknownType(s: string): string
  {
    "Unknown data type: " + s
  }

  /** `DataType::from_str`. */
  function FromStr(s: string): (r: Result<DataType>)
    ensures r.Ok? <==> IsBasicName(s)
    ensures r.Ok? ==> !r.value.Object? && !r.value.Enum? && !r.value.Reference?
    ensures r.Err? ==> r == Err(UnknownType(s))
  {
    match s
    case "string" => Ok(String)
    case "integer" => Ok(Integer)
    case "number" => Ok(Number)
    case "boolean" => Ok(Boolean)
    case "array" => Ok(Array)
    case _ => Err(UnknownType(s))
  }

  /** `Display`: an object's keys and an enumeration's values are listed,
   *  comma separated. An object type whose properties are not a JSON
   *  object panics. */
  function Show(d: DataType): (r: Result<string>)
    ensures r.Err? <==> d.Object? && !d.properties.JObject?
  {
    match d
    case String => Ok("string")
    case Integer => Ok("integer")
    case Number => Ok("number")
    case Boolean => Ok("boolean")
    case Array => Ok("array")
    case Reference(reference) => Ok("reference [" + reference + "]")
    case Object(properties) =>
      if properties.JObject? then Ok("object [" + Text.Join(FieldKeys(properties.fields), ", ") + "]")
      else Panic(NoneUnwrapPanic)
    case Enum(values) => Ok("enum [" + Text.Join(values, ", ") + "]")
  }


  /** Parsing the display of a basic type gives it back. */
  lemma FromStrShow(d: DataType)
    requires d.String? || d.Integer? || d.Number? || d.Boolean? || d.Array?
    ensures Show(d).Ok? && FromStr(Show(d).value) == Ok(d)
  {
  }

  const ParsePanic: string := "Could not parse the data type. Make sure the data type is a valid type."
  const NoTypePanic: string := "Could not find a data type in the JSON schema"

  /** The values of an "enum" array, which must all be strings. */
  function EnumValues(items: seq<Json>): (r: Result<seq<string>>)
    ensures r.Ok? <==> forall i :: 0 <= i < |items| ==> items[i].JString?
    ensures r.Ok? ==> |r.value| == |items| && forall i :: 0 <= i < |items| ==> r.value[i] == items[i].s
    ensures r.Err? ==> r == Panic(NoneUnwrapPanic)
  {
    if items == [] then Ok([])
    else if !items[0].JString? then Panic(NoneUnwrapPanic)
    else
      match EnumValues(items[1..])
      case Err(msg, panicked) => Err(msg, panicked)
      case Ok(rest) => Ok([items[0].s] + rest)
  }

  /** `DataType::from_object`: "$ref" wins over "enum", which wins over
   *  "type"; values of the wrong JSON kind and unknown types panic. */
  function FromObject(v: Json): (r: Result<DataType>)
    ensures r.Err? ==> r.panicked
    ensures Get(v, "$ref").Some? ==>
      (r.Ok? <==> Get(v, "$ref").value.JString?)
      && (r.Ok? ==> r.value == Reference(Text.LastPiece(Get(v, "$ref").value.s, '/')))
    ensures Get(v, "$ref").None? && Get(v, "enum").Some? ==>
      (r.Ok? <==> Get(v, "enum").value.JArray? && EnumValues(Get(v, "enum").value.items).Ok?)
      && (r.Ok? ==> r.value == Enum(EnumValues(Get(v, "enum").value.items).value))
    ensures Get(v, "$ref").None? && Get(v, "enum").None? && Get(v, "type").Some? ==>
      var t := Get(v, "type").value;
      (t == JString("object") ==>
        (r.Ok? <==> Get(v, "properties").Some?) && (r.Ok? ==> r.value == Object(Get(v, "properties").value)))
      && (t.JString? && t.s != "object" ==> (r.Ok? <==> IsBasicName(t.s)) && (r.Ok? ==> r == FromStr(t.s)))
    ensures Get(v, "$ref").None? && Get(v, "enum").None? && Get(v, "type").None? ==> r == Panic(NoTypePanic)
  {
    match Get(v, "$ref")
    case Some(reference) =>
      if reference.JString? then Ok(Reference(Text.LastPiece(reference.s, '/'))) else Panic(NoneUnwrapPanic)
    case None =>
      match Get(v, "enum")
      case Some(values) =>
        if values.JArray? then
          (match EnumValues(values.items)
           case Err(msg, panicked) => Err(msg, panicked)
           case Ok(strs) => Ok(Enum(strs)))
        else Panic(NoneUnwrapPanic)
      case None =>
        match Get(v, "type")
        case Some(t) =>
          if !t.JString? then Panic(NoneUnwrapPanic)
          else if t.s == "object" then
            (match Get(v, "properties")
             case Some(properties) => Ok(Object(properties))
             case None => Panic(NoneUnwrapPanic))
          else
            (match FromStr(t.s)
             case Ok(d) => Ok(d)
             case Err(_, _) => Panic(ParsePanic))
        case None => Panic(NoTypePanic)
  }

  /** The examples the source's tests check: a basic type, an enumeration,
   *  a reference, and an object without any type. */
  lemma FromObjectBasic()
    ensures FromObject(JObject([("type", JString("string"))])) == Ok(String)
  {
  }

  lemma FromObjectEnum()
    ensures FromObject(JObject([("enum", JArray([JString("one"), JString("two")]))])) == Ok(Enum(["one", "two"]))
  {
    var items := [JString("one"), JString("two")];
    assert EnumValues(items).value == ["one", "two"];
  }

  lemma FromObjectReference()
    ensures FromObject(JObject([("$ref", JString("#/definitions/Person"))])) == Ok(Reference("Person"))
  {
    Text.LastPieceOfPath("#/definitions", '/', "Person");
    assert "#/definitions" + ['/'] + "Person" == "#/definitions/Person";
  }

  lemma FromObjectUntyped()
    ensures FromObject(JObject([])) == Panic(NoTypePanic)
  {
  }
}
