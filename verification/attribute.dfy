/** Attributes of an object: their defaults, the dispatch of `key: value`
 *  options onto fields, the dtype rules for identifiers and arrays, and the
 *  scalar default values. */
module Attributes {
  import opened Wrappers
  import Text
  import opened Numbers
  import XmlTypes
  import Options
  import Positions

  /** A scalar default value. */
  datatype DataType =
    | Boolean(flag: bool)
    | Integer(number: int)
    | Float(value: F64)
    | String(text: string)
  {
    predicate IsBoolean() { Boolean? }
    predicate IsInteger() { Integer? }
    predicate IsFloat() { Float? }
    predicate IsString() { String? }

    function AsBoolean(): (r: Option<bool>)
      ensures r.Some? <==> IsBoolean()
      ensures r.Some? ==> r.value == flag
    {
      if Boolean? then Some(flag) else None
    }

    function AsInteger(): (r: Option<int>)
      ensures r.Some? <==> IsInteger()
      ensures r.Some? ==> r.value == number
    {
      if Integer? then Some(number) else None
    }

    function AsFloat(): (r: Option<F64>)
      ensures r.Some? <==> IsFloat()
      ensures r.Some? ==> r.value == value
    {
      if Float? then Some(value) else None
    }

    function AsString(): (r: Option<string>)
      ensures r.Some? <==> IsString()
      ensures r.Some? ==> r.value == text
    {
      if String? then Some(text) else None
    }
  }

  /** `PartialEq for DataType`: the same variant and equal payloads. Floats
   *  compare by their literal text. */
  predicate Equal(a: DataType, b: DataType)
  {
    match (a, b)
    case (Boolean(x), Boolean(y)) => x == y
    case (Integer(x), Integer(y)) => x == y
    case (Float(x), Float(y)) => x == y
    case (String(x), String(y)) => x == y
    case _ => false
  }

  /** Values of different variants are never equal, and equality is exactly
   *  the equality of the values. */
  lemma EqualMeansSameValue(a: DataType, b: DataType)
    ensures Equal(a, b) <==> a == b
    ensures Equal(a, b) ==> (a.IsBoolean() <==> b.IsBoolean()) && (a.IsString() <==> b.IsString())
  {
  }

  /** `DataType::from_str`: boolean, then `i64`, then `f64` on the lower-cased
   *  text; any other non-empty text is kept, in its original case, between
   *  double quotes; the empty text is an error. */
  function DataTypeFromStr(s: string): (r: Result<DataType>)
    ensures r.Err? <==> s == []
    ensures r.Ok? && r.value.Boolean? ==> Text.ToLower(s) == ShowBool(r.value.flag)
    ensures r.Ok? && r.value.Integer? ==> ParseI64(Text.ToLower(s)) == Some(r.value.number)
    ensures r.Ok? && r.value.String? ==> r.value.text == "\"" + s + "\""
  {
    var lower := Text.ToLower(s);
    var b := ParseBool(lower);
    if b.Some? then Ok(Boolean(b.value))
    else
      var i := ParseI64(lower);
      if i.Some? then Ok(Integer(i.value))
      else
        var f := ParseF64(lower);
        if f.Some? then Ok(Float(f.value))
        else if lower != [] then Ok(String("\"" + s + "\""))
        else Err("Invalid data type")
  }

  /** The text a default is written as, the partner of `DataTypeFromStr`. */
  function ShowDataType(d: DataType): string
  {
    match d
    case Boolean(b) => ShowBool(b)
    case Integer(i) => ShowInt(i)
    case Float(f) => ShowF64(f)
    case String(t) => t
  }

  /** Booleans and in-range integers are read back from their own text. */
  lemma DataTypeFromShown(d: DataType)
    requires d.Boolean? || (d.Integer? && I64_MIN <= d.number <= I64_MAX)
    ensures DataTypeFromStr(ShowDataType(d)) == Ok(d)
  {
    if d.Boolean? {
      var t := ShowBool(d.flag);
      assert Text.ToLower(t) == t by { Text.ToLowerIdempotent(t); }
    } else {
      var t := ShowInt(d.number);
      ParseShowInt(d.number, true, I64_MIN, I64_MAX);
      LowerOfNumber(d.number);
      assert ParseBool(t).None? by {
        assert t != [] && (t[0] == '-' || Text.IsDigit(t[0]));
      }
    }
  }

  lemma LowerOfNumber(n: int)
    ensures Text.ToLower(ShowInt(n)) == ShowInt(n)
  {
    var t := ShowInt(n);
    assert forall i :: 0 <= i < |t| ==> t[i] == '-' || Text.IsDigit(t[i]);
  }

  /** The examples of the source's tests: "true", "42", "3.5", "hello" and "". */
  lemma DataTypeFromStrExamples()
    ensures DataTypeFromStr("true") == Ok(Boolean(true))
    ensures DataTypeFromStr("42") == Ok(Integer(42))
    ensures DataTypeFromStr("") == Err("Invalid data type")
    ensures var r := DataTypeFromStr("3.5"); r.Ok? && r.value.Float? && r.value.value == "3.5"
    ensures DataTypeFromStr("hello") == Ok(String("\"hello\""))
  {
    DataTypeFromShown(Boolean(true));
    DataTypeFromShown(Integer(42));
    assert ShowInt(42) == "42";
    FloatExample();
    TextExample();
  }

  /** "3.5" is no boolean and no integer, but a float literal. */
  lemma FloatExample()
    ensures var r := DataTypeFromStr("3.5"); r.Ok? && r.value.Float? && r.value.value == "3.5"
  {
    var s := "3.5";
    assert Text.ToLower(s) == s;
    assert ParseInteger(s, true).None? by { assert !Text.IsDigit(s[1]); }
    assert ExponentStart(s) == 3 by {
      assert ExponentStart(s[3..]) == 0;
      assert s[3..] == [] && s[2..][1..] == s[3..] && s[1..][1..] == s[2..] && s[1..] == ".5";
    }
    assert Text.IndexOf(s, '.') == 1;
    assert s[..3] == s && s[..1] == "3" && s[2..] == "5";
    assert IsDecimalNumber(s);
  }

  /** "hello" is neither a boolean nor a number, so it is kept quoted. */
  lemma TextExample()
    ensures DataTypeFromStr("hello") == Ok(String("\"hello\""))
  {
    var s := "hello";
    assert Text.ToLower(s) == s;
    assert ParseInteger(s, true).None? by { assert !Text.IsDigit(s[0]); }
    assert !IsFloatLiteral(s) by {
      assert Text.ToLower(s) !in {"inf", "infinity", "nan"};
      assert !IsMantissa(s[..ExponentStart(s)]) by {
        assert ExponentStart(s) == 1 by { assert s[1..][0] == 'e'; }
        assert s[..1] == "h" && '.' !in s[..1] && !Text.IsDigit(s[0]);
      }
    }
    assert ParseF64(s).None?;
    assert "\"" + s + "\"" == "\"hello\"";
  }

  /** The key/value option written in markdown. */
  datatype AttrOption = AttrOption(key: string, value: string)

  /** `AttrOption::new`: the key is stored lower-cased, the value verbatim. */
  function NewAttrOption(key: string, value: string): (r: AttrOption)
    ensures Text.ToLower(r.key) == r.key
    ensures Text.ToLower(key) == r.key && r.value == value
  {
    Text.ToLowerIdempotent(key);
    AttrOption(Text.ToLower(key), value)
  }

  /** An attribute as it is stored inside its object. */
  datatype AttributeData = AttributeData(
    name: string,
    isArray: bool,
    isId: bool,
    dtypes: seq<string>,
    docstring: string,
    options: seq<Options.AttrOption>,
    term: Option<string>,
    required: bool,
    defaultValue: Option<DataType>,
    xml: Option<XmlTypes.XMLType>,
    isEnum: bool,
    position: Option<Positions.Position>,
    importPrefix: Option<string>)

  /** `Attribute::new`. */
  function NewAttribute(name: string, required: bool): (r: AttributeData)
    ensures r.name == name && r.required == required
    ensures r.dtypes == [] && r.options == [] && r.docstring == ""
    ensures !r.isArray && !r.isId && r.term.None? && r.defaultValue.None?
    ensures r.xml.Some? && XmlTypes.Consistent(r.xml.value)
    ensures r.xml.value.Attribute? <==> Text.StartsWith(name, "@")
  {
    AttributeData(name, false, false, [], "", [], None, required, None,
      Some(XmlTypes.FromStr(name).value), false, None, None)
  }

  /** True when `s[i..]` starts with one of "Identifier", "identifier" or
   *  "|dentifier": the character class `[I|i]` also holds '|'. */
  predicate IdentifierAt(s: string, i: nat)
  {
    i + 10 <= |s| && (s[i] == 'I' || s[i] == '|' || s[i] == 'i') && s[i + 1..i + 10] == "dentifier"
  }

  /** `Regex::new("[I|i]dentifier").replace_all(s, "string")`: a left-to-right
   *  scan replacing non-overlapping matches. */
  function ReplaceIdentifier(s: string): (r: string)
    ensures (forall i :: 0 <= i < |s| ==> !IdentifierAt(s, i)) ==> r == s
    decreases |s|
  {
    if s == [] then []
    else if IdentifierAt(s, 0) then "string" + ReplaceIdentifier(s[10..])
    else
      assert forall i :: 0 <= i < |s| - 1 ==> (IdentifierAt(s[1..], i) <==> IdentifierAt(s, i + 1));
      [s[0]] + ReplaceIdentifier(s[1..])
  }

  /** The replacement never touches a trailing "[]". */
  lemma ReplaceIdentifierKeepsBrackets(s: string)
    ensures Text.EndsWith(ReplaceIdentifier(s), "[]") <==> Text.EndsWith(s, "[]")
  {
    if Text.EndsWith(s, "[]") {
      var p := s[..|s| - 2];
      assert s == p + "[]";
      ReplaceBeforeBrackets(p);
    } else if Text.EndsWith(ReplaceIdentifier(s), "[]") {
      BracketsComeFromInput(s);
    }
  }

  /** A match cannot reach into a trailing "[]". */
  lemma {:induction false} ReplaceBeforeBrackets(p: string)
    ensures ReplaceIdentifier(p + "[]") == ReplaceIdentifier(p) + "[]"
    decreases |p|
  {
    var s := p + "[]";
    if p == [] {
      assert !IdentifierAt(s, 0);
      assert s[1..] == "]" && !IdentifierAt(s[1..], 0);
      assert ReplaceIdentifier(s[1..]) == "]" by { assert s[1..][1..] == []; }
    } else if IdentifierAt(p, 0) {
      assert IdentifierAt(s, 0) by { assert s[1..10] == p[1..10]; }
      assert s[10..] == p[10..] + "[]";
      ReplaceBeforeBrackets(p[10..]);
    } else {
      assert !IdentifierAt(s, 0) by {
        if |p| >= 10 {
          assert s[1..10] == p[1..10];
        } else if 10 <= |s| {
          assert s[|p|] == '[' && s[1..10][|p| - 1] == '[';
        }
      }
      assert s[1..] == p[1..] + "[]";
      ReplaceBeforeBrackets(p[1..]);
    }
  }

  /** A trailing "[]" of the result was already in the input. */
  lemma {:induction false} BracketsComeFromInput(s: string)
    requires Text.EndsWith(ReplaceIdentifier(s), "[]")
    ensures Text.EndsWith(s, "[]")
    decreases |s|
  {
    var r := ReplaceIdentifier(s);
    if IdentifierAt(s, 0) {
      var t := s[10..];
      var rt := ReplaceIdentifier(t);
      assert r == "string" + rt;
      ReplaceLength(t);
      if |rt| >= 2 {
        assert rt[|rt| - 2..] == r[|r| - 2..];
        BracketsComeFromInput(t);
        assert s[|s| - 2..] == t[|t| - 2..];
      }
    } else {
      var t := s[1..];
      var rt := ReplaceIdentifier(t);
      assert r == [s[0]] + rt;
      ReplaceLength(t);
      if |rt| >= 2 {
        assert rt[|rt| - 2..] == r[|r| - 2..];
        BracketsComeFromInput(t);
        assert s[|s| - 2..] == t[|t| - 2..];
      } else {
        assert |t| < 2;
        ReplaceLength(s);
      }
    }
  }

  /** The replacement shortens the text by at most four characters per match and
   *  keeps texts of fewer than ten characters unchanged. */
  lemma {:induction false} ReplaceLength(s: string)
    ensures |s| < 10 ==> ReplaceIdentifier(s) == s
    ensures |ReplaceIdentifier(s)| >= 2 <== |s| >= 2
    decreases |s|
  {
    if s != [] && !IdentifierAt(s, 0) {
      ReplaceLength(s[1..]);
    }
  }

  /** `Attribute::set_dtype` on the stored value: a dtype whose lower-cased
   *  form starts with "identifier" marks the attribute as an identifier and is
   *  rewritten; a trailing "[]" marks it as an array; the dtype is then
   *  appended with every trailing "[]" removed. */
  function SetDtypeSpec(a: AttributeData, dtype: string): (r: AttributeData)
  {
    var isId := Text.StartsWith(Text.ToLower(dtype), "identifier");
    var d := if isId then ReplaceIdentifier(dtype) else dtype;
    a.(isId := a.isId || isId,
       isArray := a.isArray || Text.EndsWith(d, "[]"),
       dtypes := a.dtypes + [Text.TrimEndMatches(d, "[]")])
  }

  /** Exactly one dtype is appended, without a trailing "[]"; `is_array` is
   *  set when the given dtype ended in "[]" and kept otherwise; `is_id` is set
   *  when it starts with "identifier" in any case; nothing else changes. */
  lemma SetDtypeEffect(a: AttributeData, dtype: string)
    ensures var r := SetDtypeSpec(a, dtype);
      |r.dtypes| == |a.dtypes| + 1 && r.dtypes[..|a.dtypes|] == a.dtypes &&
      !Text.EndsWith(r.dtypes[|a.dtypes|], "[]") &&
      (r.isArray <==> a.isArray || Text.EndsWith(dtype, "[]")) &&
      (r.isId <==> a.isId || Text.StartsWith(Text.ToLower(dtype), "identifier")) &&
      r.(isArray := a.isArray, isId := a.isId, dtypes := a.dtypes) == a
  {
    ReplaceIdentifierKeepsBrackets(dtype);
  }

  /** "Identifier[]" becomes an array of "string" that is an identifier. */
  lemma SetDtypeIdentifierArray(a: AttributeData)
    ensures var r := SetDtypeSpec(a, "Identifier[]");
      r.isId && r.isArray && r.dtypes == a.dtypes + ["string"]
  {
    var s := "Identifier[]";
    assert Text.ToLower(s)[..10] == "identifier";
    assert IdentifierAt(s, 0);
    assert ReplaceIdentifier(s) == "string[]" by {
      assert s[10..] == "[]";
      ReplaceLength(s[10..]);
    }
    var d := "string[]";
    assert Text.EndsWith(d, "[]");
    assert Text.TrimEndMatches(d, "[]") == "string" by {
      assert d[..|d| - 2] == "string";
      assert !Text.EndsWith("string", "[]");
    }
  }

  /** An upper-case "IDENTIFIER" is flagged as an identifier but, since the
   *  pattern only matches 'I' or 'i' followed by lower-case letters, the
   *  dtype itself is kept. */
  lemma SetDtypeUpperCaseIdentifier(a: AttributeData)
    ensures var r := SetDtypeSpec(a, "IDENTIFIER");
      r.isId && r.dtypes == a.dtypes + ["IDENTIFIER"]
  {
    UpperIdentifierFlagged();
    UpperIdentifierKept();
  }

  lemma UpperIdentifierFlagged()
    ensures Text.StartsWith(Text.ToLower("IDENTIFIER"), "identifier")
  {
    assert Text.ToLower("IDENTIFIER")[..10] == "identifier";
  }

  lemma UpperIdentifierKept()
    ensures ReplaceIdentifier("IDENTIFIER") == "IDENTIFIER"
    ensures !Text.EndsWith("IDENTIFIER", "[]")
    ensures Text.TrimEndMatches("IDENTIFIER", "[]") == "IDENTIFIER"
  {
    UpperIdentifierNoMatch("IDENTIFIER");
    var s := "IDENTIFIER";
    assert !Text.EndsWith(s, "[]") by { assert s[9] == 'R'; }
  }

  /** Ten characters with an upper-case second one hold no match. */
  lemma UpperIdentifierNoMatch(s: string)
    requires |s| == 10 && s[1] == 'D'
    ensures ReplaceIdentifier(s) == s
  {
    assert forall i :: 0 < i < |s| ==> !IdentifierAt(s, i);
    assert !IdentifierAt(s, 0);
  }

  /** The fields `add_option` can change. */
  datatype Field = DtypesField | IsIdField | IsArrayField | TermField | DocstringField
                 | XmlField | DefaultField | OptionsField

  /** `b` equals `a` outside the fields in `fs`. */
  predicate AgreeOutside(a: AttributeData, b: AttributeData, fs: set<Field>)
  {
    (DtypesField !in fs ==> b.dtypes == a.dtypes) &&
    (IsIdField !in fs ==> b.isId == a.isId) &&
    (IsArrayField !in fs ==> b.isArray == a.isArray) &&
    (TermField !in fs ==> b.term == a.term) &&
    (DocstringField !in fs ==> b.docstring == a.docstring) &&
    (XmlField !in fs ==> b.xml == a.xml) &&
    (DefaultField !in fs ==> b.defaultValue == a.defaultValue) &&
    (OptionsField !in fs ==> b.options == a.options) &&
    b.name == a.name && b.required == a.required && b.isEnum == a.isEnum &&
    b.position == a.position && b.importPrefix == a.importPrefix
  }

  /** The fields an option key dispatches to. */
  function FieldsOf(lowerKey: string): set<Field>
  {
    if lowerKey == "type" then {DtypesField, IsIdField, IsArrayField}
    else if lowerKey == "term" then {TermField}
    else if lowerKey == "description" then {DocstringField}
    else if lowerKey == "xml" then {XmlField}
    else if lowerKey == "default" then {DefaultField}
    else if lowerKey == "multiple" then {IsArrayField}
    else {OptionsField}
  }

  /** `Attribute::add_option` on the stored value. */
  function AddOptionSpec(a: AttributeData, option: AttrOption): (r: Result<AttributeData>)
    ensures r.Err? <==> Text.ToLower(option.key) == "default" && option.value == []
    ensures r.Ok? ==> AgreeOutside(a, r.value, FieldsOf(Text.ToLower(option.key)))
  {
    var key := Text.ToLower(option.key);
    if key == "type" then Ok(SetDtypeSpec(a, option.value))
    else if key == "term" then Ok(a.(term := Some(option.value)))
    else if key == "description" then Ok(a.(docstring := option.value))
    else if key == "xml" then Ok(a.(xml := Some(XmlTypes.FromStr(option.value).value)))
    else if key == "default" then
      var d := DataTypeFromStr(option.value);
      if d.Err? then Err(d.error) else Ok(a.(defaultValue := Some(d.value)))
    else if key == "multiple" then Ok(a.(isArray := Text.ToLower(option.value) == "true"))
    else Ok(a.(options := a.options + [Options.Other(option.key, option.value)]))
  }

  /** What each recognised key stores, and that any other key is kept as an
   *  option with its key and value unchanged. */
  lemma AddOptionStores(a: AttributeData, option: AttrOption)
    requires AddOptionSpec(a, option).Ok?
    ensures var r := AddOptionSpec(a, option).value; var key := Text.ToLower(option.key);
      (key == "term" ==> r.term == Some(option.value)) &&
      (key == "description" ==> r.docstring == option.value) &&
      (key == "xml" ==> r.xml.Some? && r.xml.value.name == XmlTypes.FromStr(option.value).value.name) &&
      (key == "default" ==> r.defaultValue == Some(DataTypeFromStr(option.value).value)) &&
      (key == "multiple" ==> (r.isArray <==> Text.ToLower(option.value) == "true")) &&
      (key == "type" ==> |r.dtypes| == |a.dtypes| + 1) &&
      (key !in {"type", "term", "description", "xml", "default", "multiple"} ==>
        r.options == a.options + [Options.Other(option.key, option.value)] &&
        Options.Key(r.options[|a.options|]) == option.key &&
        Options.Value(r.options[|a.options|]) == option.value)
  {
  }

  /** The "multiple" option overrides whatever a "[]" dtype set before. */
  lemma MultipleOverridesBrackets(a: AttributeData, dtype: string)
    requires Text.EndsWith(dtype, "[]")
    ensures var b := SetDtypeSpec(a, dtype);
      b.isArray && AddOptionSpec(b, AttrOption("multiple", "false")) == Ok(b.(isArray := false))
  {
    SetDtypeEffect(a, dtype);
    assert Text.ToLower("false") == "false" by { Text.ToLowerIdempotent("false"); }
    assert Text.ToLower("multiple") == "multiple" by { Text.ToLowerIdempotent("multiple"); }
  }

  /** A default with an empty value is rejected and leaves the attribute alone. */
  lemma EmptyDefaultFails(a: AttributeData)
    ensures AddOptionSpec(a, AttrOption("default", "")).Err?
  {
    assert Text.ToLower("default") == "default" by { Text.ToLowerIdempotent("default"); }
  }

  /** `Attribute`, updated in place by its setters. */
  class Attribute {
    var name: string
    var isArray: bool
    var isId: bool
    var dtypes: seq<string>
    var docstring: string
    var options: seq<Options.AttrOption>
    var term: Option<string>
    var required: bool
    var defaultValue: Option<DataType>
    var xml: Option<XmlTypes.XMLType>
    var isEnum: bool
    var position: Option<Positions.Position>
    var importPrefix: Option<string>

    /** The value this attribute has when it is moved into an object. */
    function Data(): AttributeData
      reads this
    {
      AttributeData(name, isArray, isId, dtypes, docstring, options, term, required,
        defaultValue, xml, isEnum, position, importPrefix)
    }

    /** `Attribute::new`. */
    constructor (name: string, required: bool)
      ensures Data() == NewAttribute(name, required)
    {
      this.name := name;
      this.isArray := false;
      this.isId := false;
      this.dtypes := [];
      this.docstring := "";
      this.options := [];
      this.term := None;
      this.required := required;
      this.defaultValue := None;
      this.xml := Some(XmlTypes.FromStr(name).value);
      this.isEnum := false;
      this.position := None;
      this.importPrefix := None;
    }

    /** `Attribute::set_docstring`. */
    method SetDocstring(docstring: string)
      modifies this
      ensures Data() == old(Data()).(docstring := docstring)
    {
      this.docstring := docstring;
    }

    /** `Attribute::set_xml`. */
    method SetXml(xml: XmlTypes.XMLType)
      modifies this
      ensures Data() == old(Data()).(xml := Some(xml))
    {
      this.xml := Some(xml);
    }

    /** `Attribute::has_term`. */
    function HasTerm(): (b: bool)
      reads this
      ensures b <==> Data().term.Some?
    {
      term.Some?
    }

    /** `Attribute::set_dtype`. */
    method SetDtype(dtype: string)
      modifies this
      ensures Data() == SetDtypeSpec(old(Data()), dtype)
    {
      var d := dtype;
      if Text.StartsWith(Text.ToLower(d), "identifier") {
        isId := true;
        d := ReplaceIdentifier(d);
      }
      if Text.EndsWith(d, "[]") {
        isArray := true;
      }
      dtypes := dtypes + [Text.TrimEndMatches(d, "[]")];
    }

    /** `Attribute::add_option`: an error leaves the attribute unchanged. */
    method AddOption(option: AttrOption) returns (r: Result<()>)
      modifies this
      ensures r.Ok? <==> AddOptionSpec(old(Data()), option).Ok?
      ensures r.Ok? ==> Data() == AddOptionSpec(old(Data()), option).value
      ensures r.Err? ==> Data() == old(Data())
    {
      var key := Text.ToLower(option.key);
      if key == "type" {
        SetDtype(option.value);
      } else if key == "term" {
        term := Some(option.value);
      } else if key == "description" {
        docstring := option.value;
      } else if key == "xml" {
        var x := XmlTypes.FromStr(option.value);
        SetXml(x.value);
      } else if key == "default" {
        var d := DataTypeFromStr(option.value);
        if d.Err? {
          return Err(d.error);
        }
        defaultValue := Some(d.value);
      } else if key == "multiple" {
        isArray := Text.ToLower(option.value) == "true";
      } else {
        options := options + [Options.Other(option.key, option.value)];
      }
      return Ok(());
    }
  }
}
