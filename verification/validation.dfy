/** The validator: it collects every problem of a model instead of stopping
 *  at the first, then orders the diagnostics by line. */
module Validation {
  import opened Wrappers
  import Text
  import opened Positions
  import opened Objects
  import opened Models
  import Attributes
  import opened Seqs
  import StableSort

  /** Types every dtype may use without a definition. */
  const BasicTypes: seq<string> := ["string", "number", "integer", "boolean", "float", "date", "bytes"]

  datatype ErrorType = NameError | TypeError | DuplicateError | GlobalError

  /** What a diagnostic says; `Render` spells it out. */
  datatype Message =
    | MustStartWithLetter(name: string)
    | HasWhiteSpace(name: string)
    | HasSpecialCharacters(name: string)
    | DuplicateObject(name: string)
    | DuplicateEnum(name: string)
    | DuplicateProperty(name: string)
    | EmptyType(name: string)
    | NoDefinitions
    | NoTypeSpecified(name: string)
    | NoTypeDefined(name: string)
    | TypeNotFound(dtype: string, name: string)

  function Render(m: Message): string
  {
    match m
    case MustStartWithLetter(n) => "Name '" + n + "' must start with a letter."
    case HasWhiteSpace(n) => "Name '" + n + "' contains whitespace, which is not valid. Use underscores instead."
    case HasSpecialCharacters(n) => "Name '" + n + "' contains special characters, which are not valid except for underscores."
    case DuplicateObject(n) => "Object '" + n + "' is defined more than once."
    case DuplicateEnum(n) => "Enumeration '" + n + "' is defined more than once."
    case DuplicateProperty(n) => "Property '" + n + "' is defined more than once."
    case EmptyType(n) => "Type '" + n + "' is empty and has no properties."
    case NoDefinitions => "This model has no definitions."
    case NoTypeSpecified(n) => "Property '" + n + "' has no type specified."
    case NoTypeDefined(n) => "Property '" + n + "' has no type defined. Either define a type or use a base type."
    case TypeNotFound(d, n) => "Type '" + d + "' of property '" + n + "' not found. Either define the type or use a base type."
  }

  datatype ValidationError = ValidationError(
    message: Message,
    obj: Option<string>,
    attribute: Option<string>,
    location: string,
    errorType: ErrorType,
    positions: seq<Position>)

  // ---------------------------------------------------------------------
  // Name rules
  // ---------------------------------------------------------------------

  /** `starts_with_character`: `None` when the rule passes. */
  function StartsWithCharacter(name: string): (r: Option<Message>)
    ensures r.Some? <==> name == [] || !Text.IsAlphabetic(name[0])
    ensures r.Some? ==> r.value == MustStartWithLetter(name)
  {
    if name != [] && Text.IsAlphabetic(name[0]) then None
    else Some(MustStartWithLetter(name))
  }

  /** `contains_white_space`: only the space character counts. */
  function ContainsWhiteSpace(name: string): (r: Option<Message>)
    ensures r.Some? <==> ' ' in name
    ensures r.Some? ==> r.value == HasWhiteSpace(name)
  {
    if ' ' in name then Some(HasWhiteSpace(name)) else None
  }

  /** A character the special-character rule rejects: '_' and ' ' are
   *  exempt. */
  predicate IsSpecial(c: char)
  {
    !Text.IsAlphanumeric(c) && c != '_' && c != ' '
  }

  /** `contains_special_characters`. */
  function ContainsSpecialCharacters(name: string): (r: Option<Message>)
    ensures r.Some? <==> exists i :: 0 <= i < |name| && IsSpecial(name[i])
    ensures r.Some? ==> r.value == HasSpecialCharacters(name)
  {
    if exists i :: 0 <= i < |name| && IsSpecial(name[i]) then Some(HasSpecialCharacters(name))
    else None
  }

  /** A space alone triggers the white-space rule and not the
   *  special-character rule. */
  lemma SpaceIsOnlyWhiteSpace(name: string)
    requires ' ' in name
    requires forall i :: 0 <= i < |name| ==> Text.IsAlphanumeric(name[i]) || name[i] == '_' || name[i] == ' '
    ensures ContainsWhiteSpace(name).Some? && ContainsSpecialCharacters(name).None?
  {
  }

  /** The rules every object and attribute name goes through, in order. */
  const NameChecks: seq<string -> Option<Message>> := [StartsWithCharacter, ContainsWhiteSpace, ContainsSpecialCharacters]

  /** The messages of the failing rules among `checks`, in order: every rule
   *  runs whatever the others found. */
  function Failing(checks: seq<string -> Option<Message>>, name: string): seq<Message>
  {
    if checks == [] then []
    else
      var last := checks[|checks| - 1](name);
      Failing(checks[..|checks| - 1], name) + (if last.Some? then [last.value] else [])
  }

  lemma FailingPrefix(checks: seq<string -> Option<Message>>, name: string, i: nat)
    requires i < |checks|
    ensures Failing(checks[..i + 1], name)
      == Failing(checks[..i], name) + (if checks[i](name).Some? then [checks[i](name).value] else [])
  {
    assert checks[..i + 1][..i] == checks[..i];
  }

  function NameMessages(name: string): seq<Message>
  {
    Failing(NameChecks, name)
  }

  /** A name passes when it starts with a letter and holds only letters,
   *  digits and underscores. */
  predicate ValidName(name: string)
  {
    name != [] && Text.IsAlphabetic(name[0])
    && forall i :: 0 <= i < |name| ==> Text.IsAlphanumeric(name[i]) || name[i] == '_'
  }

  /** The rules report, in order, exactly the ones a name breaks; none fires
   *  on a valid name. */
  lemma NameMessagesSpec(name: string)
    ensures NameMessages(name) ==
      (if name == [] || !Text.IsAlphabetic(name[0]) then [MustStartWithLetter(name)] else [])
      + (if ' ' in name then [HasWhiteSpace(name)] else [])
      + (if exists i :: 0 <= i < |name| && IsSpecial(name[i]) then [HasSpecialCharacters(name)] else [])
    ensures NameMessages(name) == [] <==> ValidName(name)
  {
    var first := if name == [] || !Text.IsAlphabetic(name[0]) then [MustStartWithLetter(name)] else [];
    var second := if ' ' in name then [HasWhiteSpace(name)] else [];
    var third := if exists i :: 0 <= i < |name| && IsSpecial(name[i]) then [HasSpecialCharacters(name)] else [];
    assert NameChecks[..1][..0] == [];
    assert NameChecks[..2][..1] == NameChecks[..1];
    assert NameChecks[..3][..2] == NameChecks[..2];
    assert NameChecks[..3] == NameChecks;
    assert Failing(NameChecks[..1], name) == first;
    assert Failing(NameChecks[..2], name) == first + second;
    assert Failing(NameChecks, name) == first + second + third;
    if ValidName(name) {
      assert ' ' !in name;
    }
    if first + second + third == [] {
      assert ' ' !in name;
      forall i | 0 <= i < |name| ensures Text.IsAlphanumeric(name[i]) || name[i] == '_' {
        assert name[i] != ' ';
        assert !IsSpecial(name[i]);
      }
    }
  }

  /** The NameError recording one failed rule. */
  function AsNameError(obj: Option<string>, attribute: Option<string>, positions: seq<Position>): Message -> seq<ValidationError>
  {
    (m: Message) => [ValidationError(m, obj, attribute, "Global", NameError, positions)]
  }

  /** One NameError per failing rule, in rule order. */
  function NameErrors(name: string, obj: Option<string>, attribute: Option<string>, positions: seq<Position>): seq<ValidationError>
  {
    ConcatMap(AsNameError(obj, attribute, positions), NameMessages(name))
  }

  lemma NameErrorsEmpty(name: string, obj: Option<string>, attribute: Option<string>, positions: seq<Position>)
    ensures NameErrors(name, obj, attribute, positions) == [] <==> ValidName(name)
  {
    NameMessagesSpec(name);
    ConcatMapEmpty(AsNameError(obj, attribute, positions), NameMessages(name));
    if NameMessages(name) != [] {
      assert AsNameError(obj, attribute, positions)(NameMessages(name)[0]) != [];
    }
  }

  // ---------------------------------------------------------------------
  // Duplicates and positions
  // ---------------------------------------------------------------------

  /** `get_duplicates`: an element seen a second time is a duplicate. */
  method GetDuplicates(names: seq<string>) returns (d: set<string>)
    ensures d == DuplicateSet(names)
  {
    var seen: set<string> := {};
    d := {};
    for i := 0 to |names|
      invariant forall n :: n in seen <==> multiset(names[..i])[n] > 0
      invariant forall n :: n in d <==> multiset(names[..i])[n] > 1
    {
      assert names[..i + 1] == names[..i] + [names[i]];
      if names[i] in seen {
        d := d + {names[i]};
      } else {
        seen := seen + {names[i]};
      }
    }
    assert names[..|names|] == names;
  }

  /** Names paired with their recorded positions, in model order. */
  type Entries = seq<(string, Option<Position>)>

  function ObjectEntries(objects: seq<ObjectData>): (r: Entries)
    ensures |r| == |objects| && forall i :: 0 <= i < |objects| ==> r[i] == (objects[i].name, objects[i].position)
  {
    seq(|objects|, i requires 0 <= i < |objects| => (objects[i].name, objects[i].position))
  }

  function EnumEntries(enums: seq<EnumData>): (r: Entries)
    ensures |r| == |enums| && forall i :: 0 <= i < |enums| ==> r[i] == (enums[i].name, enums[i].position)
  {
    seq(|enums|, i requires 0 <= i < |enums| => (enums[i].name, enums[i].position))
  }

  function AttributeEntries(attrs: seq<Attributes.AttributeData>): (r: Entries)
    ensures |r| == |attrs| && forall i :: 0 <= i < |attrs| ==> r[i] == (attrs[i].name, attrs[i].position)
  {
    seq(|attrs|, i requires 0 <= i < |attrs| => (attrs[i].name, attrs[i].position))
  }

  /** The map the `extract_*_positions` loops build: entries without a
   *  position are skipped, the others appended under their name. */
  function PositionsSpec(entries: Entries): (r: map<string, seq<Position>>)
  {
    if entries == [] then map[]
    else
      var m := PositionsSpec(entries[..|entries| - 1]);
      var (name, pos) := entries[|entries| - 1];
      if pos.None? then m
      else if name in m then m[name := m[name] + [pos.value]]
      else m[name := [pos.value]]
  }

  /** `map.get(name).cloned().unwrap_or_default()`. */
  function PositionsFor(m: map<string, seq<Position>>, name: string): seq<Position>
  {
    if name in m then m[name] else []
  }

  /** The recorded positions of `name`, front to back. */
  function PositionsNamed(entries: Entries, name: string): seq<Position>
  {
    if entries == [] then []
    else
      (if entries[0].0 == name && entries[0].1.Some? then [entries[0].1.value] else [])
      + PositionsNamed(entries[1..], name)
  }

  lemma {:induction false} PositionsNamedAppend(a: Entries, b: Entries, name: string)
    ensures PositionsNamed(a + b, name) == PositionsNamed(a, name) + PositionsNamed(b, name)
  {
    if a != [] {
      PositionsNamedAppend(a[1..], b, name);
      assert (a + b)[1..] == a[1..] + b;
    } else {
      assert a + b == b;
    }
  }

  /** The map lists under each name every recorded position of that name,
   *  in order, and has no entry for a name with none. */
  lemma {:induction false} PositionsSpecCollects(entries: Entries, name: string)
    ensures PositionsFor(PositionsSpec(entries), name) == PositionsNamed(entries, name)
    ensures name in PositionsSpec(entries) ==> PositionsSpec(entries)[name] != []
  {
    if entries != [] {
      var init := entries[..|entries| - 1];
      PositionsSpecCollects(init, name);
      assert entries == init + [entries[|entries| - 1]];
      PositionsNamedAppend(init, [entries[|entries| - 1]], name);
    }
  }

  /** `extract_object_positions`, `extract_enum_positions` and
   *  `extract_attribute_positions` share this loop. */
  method ExtractPositions(entries: Entries) returns (m: map<string, seq<Position>>)
    ensures m == PositionsSpec(entries)
  {
    m := map[];
    for i := 0 to |entries|
      invariant m == PositionsSpec(entries[..i])
    {
      assert entries[..i + 1][..i] == entries[..i];
      var (name, pos) := entries[i];
      if pos.None? {
        continue;
      }
      if name in m {
        m := m[name := m[name] + [pos.value]];
      } else {
        m := m[name := [pos.value]];
      }
    }
    assert entries[..|entries|] == entries;
  }

  // ---------------------------------------------------------------------
  // The diagnostics
  // ---------------------------------------------------------------------

  const NoObjectsError: ValidationError :=
    ValidationError(NoDefinitions, Some("Model"), None, "Global", GlobalError, [])

  /** Which duplicate diagnostic a set of duplicate names produces. */
  datatype DuplicateKind = ObjectKind | EnumKind | AttributeKind(owner: string)

  function DuplicateDiagnostic(kind: DuplicateKind, name: string, positions: seq<Position>): (e: ValidationError)
    ensures !e.message.NoDefinitions? && e.message.name == name && e.errorType == DuplicateError
  {
    match kind
    case ObjectKind => ValidationError(DuplicateObject(name), Some(name), None, "Global", DuplicateError, positions)
    case EnumKind => ValidationError(DuplicateEnum(name), Some(name), None, "Global", DuplicateError, positions)
    case AttributeKind(o) => ValidationError(DuplicateProperty(name), Some(o), Some(name), "Global", DuplicateError, positions)
  }

  /** One diagnostic per duplicate name, carrying its recorded positions;
   *  the source visits the names in hash-set order, so only the collection
   *  is fixed. */
  function DuplicateErrors(kind: DuplicateKind, dups: set<string>, positions: map<string, seq<Position>>): multiset<ValidationError>
  {
    multiset(set n | n in dups :: DuplicateDiagnostic(kind, n, PositionsFor(positions, n)))
  }

  /** Adding one more name adds exactly its diagnostic. */
  lemma DuplicateErrorsAdd(kind: DuplicateKind, done: set<string>, n: string, positions: map<string, seq<Position>>)
    requires n !in done
    ensures DuplicateErrors(kind, done + {n}, positions)
      == DuplicateErrors(kind, done, positions) + multiset{DuplicateDiagnostic(kind, n, PositionsFor(positions, n))}
  {
    var f := (x: string) => DuplicateDiagnostic(kind, x, PositionsFor(positions, x));
    var a := set x | x in done :: f(x);
    var b := set x | x in done + {n} :: f(x);
    assert b == a + {f(n)};
    assert f(n) !in a;
  }

  /** No duplicate names, no duplicate diagnostics. */
  lemma DuplicateErrorsEmpty(kind: DuplicateKind, dups: set<string>, positions: map<string, seq<Position>>)
    ensures DuplicateErrors(kind, dups, positions) == multiset{} <==> dups == {}
  {
    if dups != {} {
      var n :| n in dups;
      assert DuplicateDiagnostic(kind, n, PositionsFor(positions, n)) in DuplicateErrors(kind, dups, positions);
    }
  }

  /** The positions recorded for an attribute name of `o`. */
  function AttributePositions(o: ObjectData, name: string): seq<Position>
  {
    PositionsFor(PositionsSpec(AttributeEntries(o.attributes)), name)
  }

  /** `check_attr_dtype`: an empty dtype is reported and not looked up;
   *  otherwise it must name an object, an enum or a basic type. */
  function DtypeErrors(o: ObjectData, a: Attributes.AttributeData, types: seq<string>, dtype: string): (r: seq<ValidationError>)
    ensures |r| <= 1
    ensures r == [] <==> dtype != "" && (dtype in types || dtype in BasicTypes)
  {
    if dtype == "" then
      [ValidationError(NoTypeDefined(a.name), Some(o.name), Some(a.name), "Global", TypeError, AttributePositions(o, a.name))]
    else if dtype !in types && dtype !in BasicTypes then
      [ValidationError(TypeNotFound(dtype, a.name), Some(o.name), Some(a.name), "Global", TypeError, AttributePositions(o, a.name))]
    else []
  }

  function AllDtypeErrors(o: ObjectData, a: Attributes.AttributeData, types: seq<string>): seq<ValidationError>
  {
    ConcatMap((d: string) => DtypeErrors(o, a, types, d), a.dtypes)
  }

  /** The diagnostic for an attribute without any dtype. */
  function NoTypeErrors(o: ObjectData, a: Attributes.AttributeData): seq<ValidationError>
  {
    if a.dtypes == [] then
      [ValidationError(NoTypeSpecified(a.name), Some(o.name), Some(a.name), "Global", TypeError, AttributePositions(o, a.name))]
    else []
  }

  /** `validate_attribute`: its name rules, a missing type, then each dtype. */
  function AttributeErrors(o: ObjectData, a: Attributes.AttributeData, types: seq<string>): seq<ValidationError>
  {
    NameErrors(a.name, Some(o.name), Some(a.name), AttributePositions(o, a.name))
    + NoTypeErrors(o, a)
    + AllDtypeErrors(o, a, types)
  }

  /** An attribute draws no diagnostic exactly when its name is valid and it
   *  has dtypes, each of them non-empty and defined. */
  lemma AttributeErrorsEmpty(o: ObjectData, a: Attributes.AttributeData, types: seq<string>)
    ensures AttributeErrors(o, a, types) == [] <==>
      ValidName(a.name) && a.dtypes != []
      && forall k :: 0 <= k < |a.dtypes| ==> a.dtypes[k] != "" && (a.dtypes[k] in types || a.dtypes[k] in BasicTypes)
  {
    NameErrorsEmpty(a.name, Some(o.name), Some(a.name), AttributePositions(o, a.name));
    ConcatMapEmpty((d: string) => DtypeErrors(o, a, types, d), a.dtypes);
  }

  function AttributesErrors(o: ObjectData, types: seq<string>): seq<ValidationError>
  {
    ConcatMap((a: Attributes.AttributeData) => AttributeErrors(o, a, types), o.attributes)
  }

  /** `unique_elements(names).len() != names.len()`. */
  predicate HasRepeats(names: seq<string>)
  {
    |set i | 0 <= i < |names| :: names[i]| != |names|
  }

  /** The attribute-name duplicates of one object, reported only when the
   *  names are not all distinct. */
  function AttributeDuplicateErrors(o: ObjectData): multiset<ValidationError>
  {
    if HasRepeats(Names(o.attributes)) then
      DuplicateErrors(AttributeKind(o.name), DuplicateSet(Names(o.attributes)), PositionsSpec(AttributeEntries(o.attributes)))
    else multiset{}
  }

  /** The diagnostic for an object without attributes. */
  function EmptyObjectErrors(o: ObjectData, objectPositions: map<string, seq<Position>>): seq<ValidationError>
  {
    if !HasAttributes(o) then
      [ValidationError(EmptyType(o.name), Some(o.name), None, "Global", TypeError, PositionsFor(objectPositions, o.name))]
    else []
  }

  /** `validate_object`: name rules, emptiness, attribute duplicates, then
   *  every attribute. */
  function ObjectErrors(o: ObjectData, types: seq<string>, objectPositions: map<string, seq<Position>>): multiset<ValidationError>
  {
    multiset(NameErrors(o.name, Some(o.name), None, PositionsFor(objectPositions, o.name)))
    + multiset(EmptyObjectErrors(o, objectPositions))
    + AttributeDuplicateErrors(o)
    + multiset(AttributesErrors(o, types))
  }

  function ObjectsErrors(objects: seq<ObjectData>, types: seq<string>, objectPositions: map<string, seq<Position>>): multiset<ValidationError>
  {
    SumMap((o: ObjectData) => ObjectErrors(o, types, objectPositions), objects)
  }

  /** `extract_type_names`: object names, then enum names. */
  function TypeNames(m: Model): (r: seq<string>)
    ensures forall n :: n in r <==> n in ObjectNames(m.objects) || n in EnumNames(m.enums)
  {
    ObjectNames(m.objects) + EnumNames(m.enums)
  }

  /** Every diagnostic `validate` records for a model, repeats counted. */
  function ExpectedErrors(m: Model): multiset<ValidationError>
  {
    var objectPositions := PositionsSpec(ObjectEntries(m.objects));
    DuplicateErrors(ObjectKind, DuplicateSet(ObjectNames(m.objects)), objectPositions)
    + DuplicateErrors(EnumKind, DuplicateSet(EnumNames(m.enums)), PositionsSpec(EnumEntries(m.enums)))
    + (if m.objects == [] then multiset{NoObjectsError} else multiset{})
    + ObjectsErrors(m.objects, TypeNames(m), objectPositions)
  }

  // ---------------------------------------------------------------------
  // What a valid model is
  // ---------------------------------------------------------------------

  /** A model the validator accepts, stated rule by rule. */
  predicate WellFormed(m: Model)
  {
    && Distinct(ObjectNames(m.objects))
    && Distinct(EnumNames(m.enums))
    && m.objects != []
    && forall i :: 0 <= i < |m.objects| ==> WellFormedObject(m.objects[i], TypeNames(m))
  }

  predicate WellFormedObject(o: ObjectData, types: seq<string>)
  {
    && ValidName(o.name)
    && o.attributes != []
    && Distinct(Names(o.attributes))
    && forall k :: 0 <= k < |o.attributes| ==> WellFormedAttribute(o.attributes[k], types)
  }

  predicate WellFormedAttribute(a: Attributes.AttributeData, types: seq<string>)
  {
    && ValidName(a.name)
    && a.dtypes != []
    && forall k :: 0 <= k < |a.dtypes| ==> a.dtypes[k] != "" && (a.dtypes[k] in types || a.dtypes[k] in BasicTypes)
  }

  /** Every attribute of `o` is well formed exactly when none draws a
   *  diagnostic. */
  lemma AttributesErrorsEmpty(o: ObjectData, types: seq<string>)
    ensures AttributesErrors(o, types) == [] <==>
      forall k :: 0 <= k < |o.attributes| ==> WellFormedAttribute(o.attributes[k], types)
  {
    var f := (a: Attributes.AttributeData) => AttributeErrors(o, a, types);
    ConcatMapEmpty(f, o.attributes);
    forall k | 0 <= k < |o.attributes|
      ensures f(o.attributes[k]) == [] <==> WellFormedAttribute(o.attributes[k], types)
    {
      AttributeErrorsEmpty(o, o.attributes[k], types);
    }
  }

  lemma AttributeDuplicateErrorsEmpty(o: ObjectData)
    ensures AttributeDuplicateErrors(o) == multiset{} <==> Distinct(Names(o.attributes))
  {
    var names := Names(o.attributes);
    UniqueCount(names);
    DuplicateSetEmpty(names);
    DuplicateErrorsEmpty(AttributeKind(o.name), DuplicateSet(names), PositionsSpec(AttributeEntries(o.attributes)));
  }

  /** An object draws no diagnostic exactly when it is well formed. */
  lemma ObjectErrorsEmpty(o: ObjectData, types: seq<string>, objectPositions: map<string, seq<Position>>)
    ensures ObjectErrors(o, types, objectPositions) == multiset{} <==> WellFormedObject(o, types)
  {
    var nameErrors := NameErrors(o.name, Some(o.name), None, PositionsFor(objectPositions, o.name));
    NameErrorsEmpty(o.name, Some(o.name), None, PositionsFor(objectPositions, o.name));
    assert multiset(nameErrors) == multiset{} <==> ValidName(o.name) by {
      assert |multiset(nameErrors)| == |nameErrors|;
    }
    assert multiset(EmptyObjectErrors(o, objectPositions)) == multiset{} <==> o.attributes != [];
    AttributeDuplicateErrorsEmpty(o);
    AttributesErrorsEmpty(o, types);
    assert multiset(AttributesErrors(o, types)) == multiset{} <==> AttributesErrors(o, types) == [] by {
      assert |multiset(AttributesErrors(o, types))| == |AttributesErrors(o, types)|;
    }
  }

  lemma ObjectsErrorsEmpty(m: Model, objectPositions: map<string, seq<Position>>)
    ensures ObjectsErrors(m.objects, TypeNames(m), objectPositions) == multiset{} <==>
      forall i :: 0 <= i < |m.objects| ==> WellFormedObject(m.objects[i], TypeNames(m))
  {
    var f := (o: ObjectData) => ObjectErrors(o, TypeNames(m), objectPositions);
    SumMapEmpty(f, m.objects);
    forall i | 0 <= i < |m.objects|
      ensures f(m.objects[i]) == multiset{} <==> WellFormedObject(m.objects[i], TypeNames(m))
    {
      ObjectErrorsEmpty(m.objects[i], TypeNames(m), objectPositions);
    }
  }

  /** The validator reports nothing exactly on a well-formed model. */
  lemma ExpectedErrorsEmpty(m: Model)
    ensures ExpectedErrors(m) == multiset{} <==> WellFormed(m)
  {
    var objectPositions := PositionsSpec(ObjectEntries(m.objects));
    DuplicateSetEmpty(ObjectNames(m.objects));
    DuplicateSetEmpty(EnumNames(m.enums));
    DuplicateErrorsEmpty(ObjectKind, DuplicateSet(ObjectNames(m.objects)), objectPositions);
    DuplicateErrorsEmpty(EnumKind, DuplicateSet(EnumNames(m.enums)), PositionsSpec(EnumEntries(m.enums)));
    ObjectsErrorsEmpty(m, objectPositions);
  }

  // ---------------------------------------------------------------------
  // Ordering by line
  // ---------------------------------------------------------------------

  /** The sort key: the line of the first position, with -1 standing for
   *  a diagnostic without positions, which `Option` orders first. */
  function LineKey(e: ValidationError): (k: int)
    ensures k >= -1 && (k == -1 <==> e.positions == [])
  {
    if e.positions == [] then -1 else e.positions[0].line
  }

  /** `sort_errors`: a stable sort by line. */
  function SortByLine(s: seq<ValidationError>): (r: seq<ValidationError>)
    ensures multiset(r) == multiset(s)
    ensures StableSort.SortedBy(LineKey, r)
    ensures forall k :: StableSort.WithKey(LineKey, r, k) == StableSort.WithKey(LineKey, s, k)
  {
    StableSort.SortBySorted(LineKey, s);
    forall k ensures StableSort.WithKey(LineKey, StableSort.SortBy(LineKey, s), k) == StableSort.WithKey(LineKey, s, k) {
      StableSort.SortByStable(LineKey, s, k);
    }
    StableSort.SortBy(LineKey, s)
  }

  // ---------------------------------------------------------------------
  // The validator
  // ---------------------------------------------------------------------

  /** `unique_elements`: the distinct elements, in no particular order. */
  method UniqueElements(input: seq<string>) returns (u: set<string>)
    ensures u == set i | 0 <= i < |input| :: input[i]
  {
    u := {};
    for i := 0 to |input|
      invariant u == set k | 0 <= k < i :: input[k]
    {
      u := u + {input[i]};
    }
  }

  /** `Validator`: the diagnostics of the last run and the position maps
   *  names are looked up in. */
  class Validator {
    var isValid: bool
    var errors: seq<ValidationError>
    var objectPositions: map<string, seq<Position>>
    var enumPositions: map<string, seq<Position>>

    /** `is_valid` is cleared exactly when a diagnostic is recorded. */
    predicate Valid()
      reads this
    {
      isValid <==> errors == []
    }

    constructor ()
      ensures Valid() && errors == []
      ensures objectPositions == map[] && enumPositions == map[]
    {
      isValid := true;
      errors := [];
      objectPositions := map[];
      enumPositions := map[];
    }

    method Reset()
      modifies this
      ensures Valid() && errors == []
      ensures objectPositions == map[] && enumPositions == map[]
    {
      isValid := true;
      errors := [];
      objectPositions := map[];
      enumPositions := map[];
    }

    method AddError(e: ValidationError)
      modifies this
      ensures errors == old(errors) + [e] && !isValid
      ensures objectPositions == old(objectPositions) && enumPositions == old(enumPositions)
    {
      errors := errors + [e];
      isValid := false;
    }

    /** The loop over a hash set of duplicate names: each is reported once,
     *  in whatever order the set yields them. */
    method AddDuplicates(kind: DuplicateKind, dups: set<string>, positions: map<string, seq<Position>>)
      requires Valid()
      modifies this
      ensures Valid()
      ensures multiset(errors) == multiset(old(errors)) + DuplicateErrors(kind, dups, positions)
      ensures objectPositions == old(objectPositions) && enumPositions == old(enumPositions)
    {
      var remaining := dups;
      while remaining != {}
        invariant remaining <= dups && Valid()
        invariant multiset(errors) == multiset(old(errors)) + DuplicateErrors(kind, dups - remaining, positions)
        invariant objectPositions == old(objectPositions) && enumPositions == old(enumPositions)
        decreases remaining
      {
        var name :| name in remaining;
        DuplicateErrorsAdd(kind, dups - remaining, name, positions);
        AddError(DuplicateDiagnostic(kind, name, PositionsFor(positions, name)));
        assert dups - (remaining - {name}) == (dups - remaining) + {name};
        remaining := remaining - {name};
      }
    }

    /** `check_duplicate_objects`. */
    method CheckDuplicateObjects(objects: seq<ObjectData>)
      requires Valid()
      modifies this
      ensures Valid()
      ensures multiset(errors) == multiset(old(errors)) + DuplicateErrors(ObjectKind, DuplicateSet(ObjectNames(objects)), objectPositions)
      ensures objectPositions == old(objectPositions) && enumPositions == old(enumPositions)
    {
      var duplicates := GetDuplicates(ObjectNames(objects));
      AddDuplicates(ObjectKind, duplicates, objectPositions);
    }

    /** `check_duplicate_enums`: the names counted more than once. */
    method CheckDuplicateEnums(enums: seq<EnumData>)
      requires Valid()
      modifies this
      ensures Valid()
      ensures multiset(errors) == multiset(old(errors)) + DuplicateErrors(EnumKind, DuplicateSet(EnumNames(enums)), enumPositions)
      ensures objectPositions == old(objectPositions) && enumPositions == old(enumPositions)
    {
      AddDuplicates(EnumKind, DuplicateSet(EnumNames(enums)), enumPositions);
    }

    /** `check_has_no_objects`. */
    method CheckHasNoObjects(m: Model)
      requires Valid()
      modifies this
      ensures Valid()
      ensures errors == old(errors) + (if m.objects == [] then [NoObjectsError] else [])
      ensures objectPositions == old(objectPositions) && enumPositions == old(enumPositions)
    {
      if m.objects == [] {
        AddError(NoObjectsError);
      }
    }

    /** The three name rules, shared by `validate_object_name` and
     *  `validate_attribute_name`. */
    method CheckName(name: string, obj: Option<string>, attribute: Option<string>, positions: seq<Position>)
      requires Valid()
      modifies this
      ensures Valid()
      ensures errors == old(errors) + NameErrors(name, obj, attribute, positions)
      ensures objectPositions == old(objectPositions) && enumPositions == old(enumPositions)
    {
      var f := AsNameError(obj, attribute, positions);
      ghost var found: seq<Message> := [];
      for i := 0 to |NameChecks|
        invariant Valid()
        invariant found == Failing(NameChecks[..i], name)
        invariant errors == old(errors) + ConcatMap(f, found)
        invariant objectPositions == old(objectPositions) && enumPositions == old(enumPositions)
      {
        var result := NameChecks[i](name);
        FailingPrefix(NameChecks, name, i);
        if result.Some? {
          AddError(ValidationError(result.value, obj, attribute, "Global", NameError, positions));
          ConcatMapSnoc(f, found, result.value);
          AppendAssoc(old(errors), ConcatMap(f, found), f(result.value));
          found := found + [result.value];
        }
      }
      assert NameChecks[..|NameChecks|] == NameChecks;
    }

    /** `validate_object_name`. */
    method ValidateObjectName(name: string)
      requires Valid()
      modifies this
      ensures Valid()
      ensures errors == old(errors) + NameErrors(name, Some(name), None, PositionsFor(objectPositions, name))
      ensures objectPositions == old(objectPositions) && enumPositions == old(enumPositions)
    {
      CheckName(name, Some(name), None, PositionsFor(objectPositions, name));
    }

    /** `check_has_attributes`. */
    method CheckHasAttributes(o: ObjectData)
      requires Valid()
      modifies this
      ensures Valid()
      ensures errors == old(errors) + EmptyObjectErrors(o, objectPositions)
      ensures objectPositions == old(objectPositions) && enumPositions == old(enumPositions)
    {
      if !HasAttributes(o) {
        AddError(ValidationError(EmptyType(o.name), Some(o.name), None, "Global", TypeError, PositionsFor(objectPositions, o.name)));
      }
    }

    /** `check_duplicate_attributes`: the duplicate scan runs only when the
     *  names are not all distinct. */
    method CheckDuplicateAttributes(o: ObjectData)
      requires Valid()
      modifies this
      ensures Valid()
      ensures multiset(errors) == multiset(old(errors)) + AttributeDuplicateErrors(o)
      ensures objectPositions == old(objectPositions) && enumPositions == old(enumPositions)
    {
      var attrNames := Names(o.attributes);
      var attributePositions := ExtractPositions(AttributeEntries(o.attributes));
      var unique := UniqueElements(attrNames);
      if |attrNames| != |unique| {
        var duplicates := GetDuplicates(attrNames);
        AddDuplicates(AttributeKind(o.name), duplicates, attributePositions);
      }
    }

    /** `check_attr_dtype`. */
    method CheckAttrDtype(a: Attributes.AttributeData, types: seq<string>, o: ObjectData, dtype: string)
      requires Valid()
      modifies this
      ensures Valid()
      ensures errors == old(errors) + DtypeErrors(o, a, types, dtype)
      ensures objectPositions == old(objectPositions) && enumPositions == old(enumPositions)
    {
      var attributePositions := ExtractPositions(AttributeEntries(o.attributes));
      var positions := PositionsFor(attributePositions, a.name);
      if dtype == "" {
        AddError(ValidationError(NoTypeDefined(a.name), Some(o.name), Some(a.name), "Global", TypeError, positions));
        return;
      }
      if dtype !in types && dtype !in BasicTypes {
        AddError(ValidationError(TypeNotFound(dtype, a.name), Some(o.name), Some(a.name), "Global", TypeError, positions));
      }
    }

    /** `validate_attribute_name`. */
    method ValidateAttributeName(name: string, o: ObjectData)
      requires Valid()
      modifies this
      ensures Valid()
      ensures errors == old(errors) + NameErrors(name, Some(o.name), Some(name), AttributePositions(o, name))
      ensures objectPositions == old(objectPositions) && enumPositions == old(enumPositions)
    {
      var attributePositions := ExtractPositions(AttributeEntries(o.attributes));
      CheckName(name, Some(o.name), Some(name), PositionsFor(attributePositions, name));
    }

    /** The dtype checks of `validate_attribute`, one dtype after another. */
    method CheckAttrDtypes(a: Attributes.AttributeData, types: seq<string>, o: ObjectData)
      requires Valid()
      modifies this
      ensures Valid()
      ensures errors == old(errors) + AllDtypeErrors(o, a, types)
      ensures objectPositions == old(objectPositions) && enumPositions == old(enumPositions)
    {
      ghost var before := errors;
      for i := 0 to |a.dtypes|
        invariant Valid()
        invariant errors == before + ConcatMap((d: string) => DtypeErrors(o, a, types, d), a.dtypes[..i])
        invariant objectPositions == old(objectPositions) && enumPositions == old(enumPositions)
      {
        ConcatMapPrefix((d: string) => DtypeErrors(o, a, types, d), a.dtypes, i);
        AppendAssoc(before, ConcatMap((d: string) => DtypeErrors(o, a, types, d), a.dtypes[..i]), DtypeErrors(o, a, types, a.dtypes[i]));
        CheckAttrDtype(a, types, o, a.dtypes[i]);
      }
      assert a.dtypes[..|a.dtypes|] == a.dtypes;
    }

    /** `validate_attribute`. */
    method ValidateAttribute(a: Attributes.AttributeData, types: seq<string>, o: ObjectData)
      requires Valid()
      modifies this
      ensures Valid()
      ensures errors == old(errors) + AttributeErrors(o, a, types)
      ensures objectPositions == old(objectPositions) && enumPositions == old(enumPositions)
    {
      ghost var start := errors;
      ValidateAttributeName(a.name, o);
      ghost var named := errors;
      var attributePositions := ExtractPositions(AttributeEntries(o.attributes));
      if a.dtypes == [] {
        AddError(ValidationError(NoTypeSpecified(a.name), Some(o.name), Some(a.name), "Global", TypeError, PositionsFor(attributePositions, a.name)));
      }
      ghost var before := errors;
      assert before == named + NoTypeErrors(o, a);
      CheckAttrDtypes(a, types, o);
      ghost var n, t, d := NameErrors(a.name, Some(o.name), Some(a.name), AttributePositions(o, a.name)), NoTypeErrors(o, a), AllDtypeErrors(o, a, types);
      assert errors == start + n + t + d;
      assert AttributeErrors(o, a, types) == n + t + d;
    }

    /** `validate_object`. */
    method ValidateObject(o: ObjectData, types: seq<string>)
      requires Valid()
      modifies this
      ensures Valid()
      ensures multiset(errors) == multiset(old(errors)) + ObjectErrors(o, types, objectPositions)
      ensures objectPositions == old(objectPositions) && enumPositions == old(enumPositions)
    {
      ValidateObjectName(o.name);
      CheckHasAttributes(o);
      CheckDuplicateAttributes(o);
      ghost var before := errors;
      for i := 0 to |o.attributes|
        invariant Valid()
        invariant errors == before + ConcatMap((a: Attributes.AttributeData) => AttributeErrors(o, a, types), o.attributes[..i])
        invariant objectPositions == old(objectPositions) && enumPositions == old(enumPositions)
      {
        ConcatMapPrefix((a: Attributes.AttributeData) => AttributeErrors(o, a, types), o.attributes, i);
        AppendAssoc(before, ConcatMap((a: Attributes.AttributeData) => AttributeErrors(o, a, types), o.attributes[..i]), AttributeErrors(o, o.attributes[i], types));
        ValidateAttribute(o.attributes[i], types, o);
      }
      assert o.attributes[..|o.attributes|] == o.attributes;
    }

    /** `sort_errors`. */
    method SortErrors()
      requires Valid()
      modifies this
      ensures Valid()
      ensures errors == SortByLine(old(errors))
      ensures objectPositions == old(objectPositions) && enumPositions == old(enumPositions)
    {
      errors := SortByLine(errors);
      assert |errors| == |multiset(errors)|;
    }

    /** The model-wide checks `validate` runs first: duplicate objects,
     *  duplicate enums, and a model without objects. */
    method CheckModelWide(m: Model)
      requires Valid() && errors == []
      modifies this
      ensures Valid()
      ensures multiset(errors) == DuplicateErrors(ObjectKind, DuplicateSet(ObjectNames(m.objects)), objectPositions)
        + DuplicateErrors(EnumKind, DuplicateSet(EnumNames(m.enums)), enumPositions)
        + (if m.objects == [] then multiset{NoObjectsError} else multiset{})
      ensures objectPositions == old(objectPositions) && enumPositions == old(enumPositions)
    {
      CheckDuplicateObjects(m.objects);
      CheckDuplicateEnums(m.enums);
      CheckHasNoObjects(m);
    }

    /** The loop of `validate` over the objects. */
    method ValidateObjects(objects: seq<ObjectData>, types: seq<string>)
      requires Valid()
      modifies this
      ensures Valid()
      ensures multiset(errors) == multiset(old(errors)) + ObjectsErrors(objects, types, objectPositions)
      ensures objectPositions == old(objectPositions) && enumPositions == old(enumPositions)
    {
      ghost var positions := objectPositions;
      for i := 0 to |objects|
        invariant Valid()
        invariant multiset(errors) == multiset(old(errors)) + ObjectsErrors(objects[..i], types, positions)
        invariant objectPositions == old(objectPositions) && enumPositions == old(enumPositions)
      {
        SumMapPrefix((o: ObjectData) => ObjectErrors(o, types, positions), objects, i);
        ValidateObject(objects[i], types);
      }
      assert objects[..|objects|] == objects;
    }

    /** `validate`: starts afresh, records every diagnostic of `m` and orders
     *  them by line. The model is valid exactly when it is well formed. */
    method Validate(m: Model)
      modifies this
      ensures Valid()
      ensures multiset(errors) == ExpectedErrors(m)
      ensures StableSort.SortedBy(LineKey, errors)
      ensures isValid <==> WellFormed(m)
      ensures objectPositions == PositionsSpec(ObjectEntries(m.objects))
      ensures enumPositions == PositionsSpec(EnumEntries(m.enums))
    {
      Reset();
      objectPositions := ExtractPositions(ObjectEntries(m.objects));
      enumPositions := ExtractPositions(EnumEntries(m.enums));
      var types := TypeNames(m);
      CheckModelWide(m);
      ValidateObjects(m.objects, types);
      SortErrors();
      ExpectedErrorsEmpty(m);
      assert errors == [] <==> multiset(errors) == multiset{};
    }
  }
}
