/** `From<DataModel> for LinkML` and the conversions it is built from:
 *  objects become classes, attributes slots, enumerations enums. */
module LinkmlExport {
  import opened Wrappers
  import IndexMaps
  import opened LinkmlSchema
  import opened Attributes
  import opened Objects
  import opened Models
  import Options
  import OrderedMaps
  import opened StringOrder
  import opened Seqs
  import Numbers
  import Text
  import LinkmlImport
  import Trees

  /** The panic of `attribute.dtypes[0]` on an attribute without dtypes. */
  const IndexPanic: string := "index out of bounds: the len is 0 but the index is 0"
  /** The panic of `parse::<i64>().unwrap()` on a bound that is no integer. */
  const ParseIntPanic: string := "called `Result::unwrap()` on an `Err` value: ParseIntError"
  const UnnamedModel: string := "Unnamed Data Model"
  const TypesImport: string := "linkml:types"

  // ---------------------------------------------------------------------
  // Attributes
  // ---------------------------------------------------------------------

  /** Where `options.iter().find(|o| o.key() == key)` stops: the index of
   *  the first option with that key, or the length when there is none. */
  function KeyIndex(options: seq<Options.AttrOption>, key: string): (i: nat)
    ensures i <= |options|
    ensures i < |options| ==> Options.Key(options[i]) == key
    ensures forall j :: 0 <= j < i ==> Options.Key(options[j]) != key
  {
    if options == [] then 0
    else if Options.Key(options[0]) == key then 0
    else
      var rest := KeyIndex(options[1..], key);
      assert forall j :: 1 <= j <= rest ==> options[j] == options[1..][j - 1];
      1 + rest
  }

  /** `options.iter().find(|o| o.key() == key)`. */
  function FindOption(options: seq<Options.AttrOption>, key: string): Option<Options.AttrOption>
  {
    var i := KeyIndex(options, key);
    if i < |options| then Some(options[i]) else None
  }

  /** A bound option's printed value parsed as `i64`; an unparsable value
   *  panics. */
  function BoundValue(o: Option<Options.AttrOption>): (r: Result<Option<int>>)
    ensures r.Ok? && r.value.Some? ==> Numbers.I64_MIN <= r.value.value <= Numbers.I64_MAX
    ensures r.Err? <==> o.Some? && Numbers.ParseI64(Options.Value(o.value)).None?
  {
    if o.None? then Ok(None)
    else
      var n := Numbers.ParseI64(Options.Value(o.value));
      if n.None? then Panic(ParseIntPanic) else Ok(Some(n.value))
  }

  /** One example per option under the key "example", in option order. */
  function Examples(options: seq<Options.AttrOption>): (r: seq<Example>)
    ensures |r| == |Filter(o => Options.Key(o) == "example", options)|
    ensures forall i :: 0 <= i < |r| ==>
      r[i] == Example(Some(Options.Value(Filter(o => Options.Key(o) == "example", options)[i])), None)
  {
    var picked := Filter(o => Options.Key(o) == "example", options);
    seq(|picked|, i requires 0 <= i < |picked| => Example(Some(Options.Value(picked[i])), None))
  }

  /** `From<Attribute> for AttributeDefinition`. Indexing `dtypes[0]` and
   *  unwrapping the parsed bounds are panics. */
  function AttributeToDefinition(a: AttributeData): (r: Result<AttributeDefinition>)
    ensures r.Err? ==> r.panicked
    ensures r.Err? <==> (a.dtypes == []
      || BoundValue(FindOption(a.options, "minimum")).Err?
      || BoundValue(FindOption(a.options, "maximum")).Err?)
  {
    if a.dtypes == [] then Panic(IndexPanic)
    else
      var minimum := BoundValue(FindOption(a.options, "minimum"));
      var maximum := BoundValue(FindOption(a.options, "maximum"));
      if minimum.Err? then Panic(minimum.error)
      else if maximum.Err? then Panic(maximum.error)
      else
        Ok(AttributeDefinition(
          Some(a.docstring), a.term, Some(a.isId), Some(a.required),
          if a.dtypes[0] == "string" then None else Some(a.dtypes[0]),
          None, Some(a.isArray), minimum.value, maximum.value, None,
          Examples(a.options), None))
  }

  /** Exported and imported again, an attribute keeps its first dtype, its
   *  docstring, its term and its three flags. Its later dtypes, its options,
   *  its default and its XML descriptor are lost. */
  lemma AttributeRoundTrip(a: AttributeData)
    requires AttributeToDefinition(a).Ok?
    ensures var b := LinkmlImport.AttributeFromDefinition(AttributeToDefinition(a).value);
      && b.dtypes == [a.dtypes[0]] && b.docstring == a.docstring && b.term == a.term
      && b.isArray == a.isArray && b.isId == a.isId && b.required == a.required
  {
  }

  /** An imported attribute exports again without panicking: "string" is
   *  left implicit, the flags and the description become explicit, and the
   *  bounds, read-only, recommended and the examples are gone. */
  lemma DefinitionRoundTrip(name: string, def: AttributeDefinition)
    ensures var r := AttributeToDefinition(LinkmlImport.NamedAttribute(name, def));
      && r.Ok?
      && r.value.range == (if def.range == Some("string") then None else def.range)
      && r.value.description == Some(def.description.UnwrapOr(""))
      && r.value.slotUri == def.slotUri
      && r.value.multivalued.Some? && FlagReadBack(r.value.multivalued) == FlagReadBack(def.multivalued)
      && r.value.identifier.Some? && FlagReadBack(r.value.identifier) == FlagReadBack(def.identifier)
      && r.value.required.Some? && FlagReadBack(r.value.required) == FlagReadBack(def.required)
      && r.value.minimumValue.None? && r.value.maximumValue.None? && r.value.examples == []
  {
  }

  /** No dtypes is a panic, and so is a minimum that does not print as an
   *  integer. */
  lemma AttributeToDefinitionPanics(a: AttributeData)
    ensures a.dtypes == [] ==> AttributeToDefinition(a) == Panic(IndexPanic)
    ensures a.dtypes != [] && a.options == [Options.MinimumValue("1.5")] ==>
      AttributeToDefinition(a) == Panic(ParseIntPanic)
  {
    if a.dtypes != [] && a.options == [Options.MinimumValue("1.5")] {
      FractionalMinimum();
    }
  }

  lemma FractionalMinimum()
    ensures BoundValue(FindOption([Options.MinimumValue("1.5")], "minimum")) == Panic(ParseIntPanic)
  {
    var o := Options.MinimumValue("1.5");
    assert Options.Key(o) == "minimum";
    assert KeyIndex([o], "minimum") == 0;
    assert Options.Value(o) == "1.5";
    assert Numbers.ParseI64("1.5").None? by {
      assert !Text.IsDigit("1.5"[1]);
    }
  }

  // ---------------------------------------------------------------------
  // Classes
  // ---------------------------------------------------------------------

  /** An attribute as its `(name, definition)` entry. */
  function NamedDefinition(a: AttributeData): Result<(string, AttributeDefinition)>
  {
    var d := AttributeToDefinition(a);
    if d.Err? then Err(d.error, d.panicked) else Ok((a.name, d.value))
  }

  /** The slot usage an attribute's first `pattern` option asks for. */
  function PatternUsage(a: AttributeData): Option<SlotUsage>
  {
    var p := FindOption(a.options, "pattern");
    if p.Some? then Some(SlotUsage(Some(Options.Value(p.value)))) else None
  }

  /** One `(name, usage)` entry per attribute with a `pattern` option, in
   *  attribute order. */
  function PatternEntries(attrs: seq<AttributeData>): seq<(string, SlotUsage)>
  {
    if attrs == [] then []
    else
      var last := attrs[|attrs| - 1];
      var u := PatternUsage(last);
      PatternEntries(attrs[..|attrs| - 1]) + (if u.Some? then [(last.name, u.value)] else [])
  }

  /** `From<Object> for ClassDefinition`: the attributes keyed by name, and a
   *  slot usage for every attribute with a `pattern` option, left out when
   *  there is none. Converting an attribute may panic. */
  function ClassFromObject(o: ObjectData): (r: Result<ClassDefinition>)
    ensures r.Err? ==> r.panicked
    ensures r.Ok? <==> forall i :: 0 <= i < |o.attributes| ==> AttributeToDefinition(o.attributes[i]).Ok?
    ensures r.Ok? ==> r.value.treeRoot.None? && r.value.slots == []
  {
    var entries := TryMap(NamedDefinition, o.attributes);
    if entries.Err? then Err(entries.error, entries.panicked)
    else
      var usage := IndexMaps.FromPairs(PatternEntries(o.attributes));
      Ok(ClassDefinition(Some(o.docstring), o.term, [], o.parent, None,
        if usage == [] then None else Some(usage),
        Some(IndexMaps.FromPairs(entries.value)), []))
  }

  /** No entries means no attribute with a pattern. */
  lemma {:induction false} PatternEntriesEmpty(attrs: seq<AttributeData>)
    ensures PatternEntries(attrs) == [] <==> forall i :: 0 <= i < |attrs| ==> PatternUsage(attrs[i]).None?
  {
    if attrs != [] {
      var init := attrs[..|attrs| - 1];
      PatternEntriesEmpty(init);
      assert forall i :: 0 <= i < |init| ==> init[i] == attrs[i];
    }
  }

  /** The exported class describes the object: its docstring, term and
   *  parent, one attribute entry per distinct name, and a slot usage exactly
   *  when some attribute has a pattern. With distinct names every attribute
   *  reads as its own definition. */
  lemma ClassFromObjectContents(o: ObjectData)
    requires ClassFromObject(o).Ok?
    ensures var c := ClassFromObject(o).value;
      && c.description == Some(o.docstring) && c.classUri == o.term && c.isA == o.parent
      && c.slots == [] && c.mixins == [] && c.treeRoot.None?
      && c.attributes.Some? && IndexMaps.Valid(c.attributes.value)
      && IndexMaps.Keys(c.attributes.value) == Dedup(Names(o.attributes))
      && (c.slotUsage.None? <==> forall i :: 0 <= i < |o.attributes| ==> PatternUsage(o.attributes[i]).None?)
    ensures var c := ClassFromObject(o).value;
      Distinct(Names(o.attributes)) ==>
        forall i :: 0 <= i < |o.attributes| ==>
          IndexMaps.Get(c.attributes.value, o.attributes[i].name) == Some(AttributeToDefinition(o.attributes[i]).value)
  {
    var entries := TryMap(NamedDefinition, o.attributes).value;
    var es := PatternEntries(o.attributes);
    assert ClassFromObject(o).value.attributes == Some(IndexMaps.FromPairs(entries));
    assert ClassFromObject(o).value.slotUsage == if IndexMaps.FromPairs(es) == [] then None else Some(IndexMaps.FromPairs(es));
    NamedDefinitionKeepsName();
    NamedEntries(NamedDefinition, o.attributes, entries);
    IndexMaps.FromPairsContents(entries);
    UsageEmpty(o.attributes);
    if Distinct(Names(o.attributes)) {
      DistinctEntries(NamedDefinition, o.attributes, entries);
      forall i | 0 <= i < |o.attributes|
        ensures NamedDefinition(o.attributes[i]).value.1 == AttributeToDefinition(o.attributes[i]).value
      {
        NamedDefinitionValue(o.attributes[i]);
      }
    }
  }

  /** A named definition pairs the attribute's name with its definition. */
  lemma NamedDefinitionValue(a: AttributeData)
    requires NamedDefinition(a).Ok?
    ensures NamedDefinition(a).value == (a.name, AttributeToDefinition(a).value)
  {
  }

  /** Every named definition is filed under its attribute's name. */
  lemma NamedDefinitionKeepsName()
    ensures forall a :: NamedDefinition(a).Ok? ==> NamedDefinition(a).value.0 == a.name
  {
    forall a | NamedDefinition(a).Ok? ensures NamedDefinition(a).value.0 == a.name {
      NamedDefinitionValue(a);
    }
  }

  /** Definitions collected by a mapping that keeps each attribute's name
   *  carry the attribute names, in order. */
  lemma NamedEntries(f: AttributeData -> Result<(string, AttributeDefinition)>,
                     attrs: seq<AttributeData>, entries: seq<(string, AttributeDefinition)>)
    requires TryMap(f, attrs) == Ok(entries)
    requires forall a :: f(a).Ok? ==> f(a).value.0 == a.name
    ensures IndexMaps.Keys(entries) == Names(attrs)
  {
    var ks := IndexMaps.Keys(entries);
    var ns := Names(attrs);
    forall i | 0 <= i < |ks| ensures ks[i] == ns[i] {
      assert entries[i] == f(attrs[i]).value;
    }
  }

  /** The slot usage is empty exactly when no attribute has a pattern. */
  lemma UsageEmpty(attrs: seq<AttributeData>)
    ensures IndexMaps.FromPairs(PatternEntries(attrs)) == [] <==> forall i :: 0 <= i < |attrs| ==> PatternUsage(attrs[i]).None?
  {
    var es := PatternEntries(attrs);
    IndexMaps.FromPairsContents(es);
    PatternEntriesEmpty(attrs);
    if es != [] {
      assert es[0].0 in IndexMaps.Keys(es);
      assert es[0].0 in IndexMaps.Keys(IndexMaps.FromPairs(es));
    }
  }

  /** With distinct names every attribute reads as its own definition. */
  lemma DistinctEntries(f: AttributeData -> Result<(string, AttributeDefinition)>,
                        attrs: seq<AttributeData>, entries: seq<(string, AttributeDefinition)>)
    requires TryMap(f, attrs) == Ok(entries) && Distinct(Names(attrs))
    requires forall a :: f(a).Ok? ==> f(a).value.0 == a.name
    ensures forall i :: 0 <= i < |attrs| ==>
      IndexMaps.Get(IndexMaps.FromPairs(entries), attrs[i].name) == Some(f(attrs[i]).value.1)
  {
    NamedEntries(f, attrs, entries);
    IndexMaps.FromDistinctPairs(entries);
    forall i | 0 <= i < |attrs|
      ensures IndexMaps.Get(entries, attrs[i].name) == Some(f(attrs[i]).value.1)
    {
      IndexMaps.GetEntry(entries, i);
    }
  }

  /** What a slot usage gives back to an attribute on import: its pattern,
   *  if it had one. */
  function PatternOptions(a: AttributeData): seq<Options.AttrOption>
  {
    var u := PatternUsage(a);
    if u.Some? then [Options.Pattern(u.value.pattern.value)] else []
  }

  /** Distinct attribute names give distinct slot-usage keys, each the name
   *  of an attribute. */
  lemma {:induction false} PatternEntriesDistinct(attrs: seq<AttributeData>)
    requires Distinct(Names(attrs))
    ensures Distinct(IndexMaps.Keys(PatternEntries(attrs)))
    ensures forall k :: k in IndexMaps.Keys(PatternEntries(attrs)) ==> k in Names(attrs)
  {
    if attrs != [] {
      var init := attrs[..|attrs| - 1];
      var last := attrs[|attrs| - 1];
      NamesInit(attrs);
      DistinctSnoc(Names(init), last.name);
      PatternEntriesDistinct(init);
      var es := PatternEntries(init);
      if PatternUsage(last).Some? {
        var e := (last.name, PatternUsage(last).value);
        assert IndexMaps.Keys(es + [e]) == IndexMaps.Keys(es) + [last.name];
        DistinctSnoc(IndexMaps.Keys(es), last.name);
      } else {
        assert PatternEntries(attrs) == es + [];
      }
    }
  }

  /** One more attribute adds its own pattern to what its name reads back. */
  lemma PatternsForSnoc(attrs: seq<AttributeData>, n: string)
    requires attrs != []
    ensures var last := attrs[|attrs| - 1];
      LinkmlImport.PatternsFor(PatternEntries(attrs), n)
        == LinkmlImport.PatternsFor(PatternEntries(attrs[..|attrs| - 1]), n)
          + (if last.name == n then PatternOptions(last) else [])
  {
    var last := attrs[|attrs| - 1];
    var es := PatternEntries(attrs[..|attrs| - 1]);
    if PatternUsage(last).Some? {
      var e := (last.name, PatternUsage(last).value);
      assert (es + [e])[..|es|] == es;
    } else {
      assert PatternEntries(attrs) == es + [] == es;
      assert PatternOptions(last) == [];
      assert LinkmlImport.PatternsFor(es, n) + [] == LinkmlImport.PatternsFor(es, n);
    }
  }

  /** A name no attribute has reads back no pattern. */
  lemma {:induction false} PatternsForAbsent(attrs: seq<AttributeData>, n: string)
    requires n !in Names(attrs)
    ensures LinkmlImport.PatternsFor(PatternEntries(attrs), n) == []
  {
    if attrs != [] {
      var init := attrs[..|attrs| - 1];
      NamesInit(attrs);
      PatternsForAbsent(init, n);
      PatternsForSnoc(attrs, n);
    }
  }

  /** Read back on import, the slot usage gives an attribute exactly its own
   *  pattern. */
  lemma {:induction false} PatternsForAt(attrs: seq<AttributeData>, i: nat)
    requires Distinct(Names(attrs)) && i < |attrs|
    ensures LinkmlImport.PatternsFor(PatternEntries(attrs), attrs[i].name) == PatternOptions(attrs[i])
    decreases |attrs|, 1
  {
    if i == |attrs| - 1 {
      NamesInit(attrs);
      DistinctSnoc(Names(attrs[..i]), attrs[i].name);
      PatternsForLast(attrs);
    } else {
      PatternsForEarlier(attrs, i);
    }
  }

  /** `PatternsForAt` for the last attribute when no earlier one has its name. */
  lemma PatternsForLast(attrs: seq<AttributeData>)
    requires attrs != [] && attrs[|attrs| - 1].name !in Names(attrs[..|attrs| - 1])
    ensures var last := attrs[|attrs| - 1];
      LinkmlImport.PatternsFor(PatternEntries(attrs), last.name) == PatternOptions(last)
  {
    var last := attrs[|attrs| - 1];
    PatternsForAbsent(attrs[..|attrs| - 1], last.name);
    PatternsForSnoc(attrs, last.name);
  }

  /** `PatternsForAt` for an earlier attribute: the last one has another name. */
  lemma {:induction false} PatternsForEarlier(attrs: seq<AttributeData>, i: nat)
    requires Distinct(Names(attrs)) && i < |attrs| - 1
    ensures LinkmlImport.PatternsFor(PatternEntries(attrs), attrs[i].name) == PatternOptions(attrs[i])
    decreases |attrs|, 0
  {
    var init := attrs[..|attrs| - 1];
    var last := attrs[|attrs| - 1];
    NamesInit(attrs);
    DistinctSnoc(Names(init), last.name);
    assert init[i] == attrs[i] && Names(init)[i] == attrs[i].name;
    PatternsForSnoc(attrs, attrs[i].name);
    PatternsForAt(init, i);
  }

  /** Exported and imported again, an object with distinct attribute names
   *  keeps its attributes in order, each with its name, first dtype,
   *  docstring, term and flags; the patterns come back through the slot
   *  usage and are then the only options. The parent becomes the name. */
  lemma ClassRoundTrip(o: ObjectData)
    requires ClassFromObject(o).Ok? && Distinct(Names(o.attributes))
    ensures var back := LinkmlImport.ClassObject(ClassFromObject(o).value);
      && back.name == o.parent.UnwrapOr("") && back.docstring == o.docstring && back.term == o.term
      && |back.attributes| == |o.attributes|
      && forall i :: 0 <= i < |o.attributes| ==>
        var a := o.attributes[i];
        var b := back.attributes[i];
        && b.name == a.name && b.dtypes == [a.dtypes[0]] && b.docstring == a.docstring && b.term == a.term
        && b.isArray == a.isArray && b.isId == a.isId && b.required == a.required
        && b.options == PatternOptions(a)
  {
    ClassFromObjectContents(o);
    LinkmlImport.ClassObjectContents(ClassFromObject(o).value);
    forall i | 0 <= i < |o.attributes| {
      AttributeBack(o, i);
    }
  }

  /** One attribute of `ClassRoundTrip`. */
  lemma AttributeBack(o: ObjectData, i: nat)
    requires ClassFromObject(o).Ok? && Distinct(Names(o.attributes)) && i < |o.attributes|
    ensures var back := LinkmlImport.ClassObject(ClassFromObject(o).value);
      var a := o.attributes[i];
      && i < |back.attributes|
      && var b := back.attributes[i];
        && b.name == a.name && b.dtypes == [a.dtypes[0]] && b.docstring == a.docstring && b.term == a.term
        && b.isArray == a.isArray && b.isId == a.isId && b.required == a.required
        && b.options == PatternOptions(a)
  {
    ImportedAttributeAt(o, i);
    AttributeRoundTrip(o.attributes[i]);
    PatternsForAt(o.attributes, i);
  }

  /** The attribute import builds from the exported entry and slot usage. */
  lemma ImportedAttributeAt(o: ObjectData, i: nat)
    requires ClassFromObject(o).Ok? && Distinct(Names(o.attributes)) && i < |o.attributes|
    ensures var back := LinkmlImport.ClassObject(ClassFromObject(o).value);
      var a := o.attributes[i];
      && i < |back.attributes|
      && back.attributes[i] == LinkmlImport.NamedAttribute(a.name, AttributeToDefinition(a).value)
           .(options := LinkmlImport.PatternsFor(PatternEntries(o.attributes), a.name))
  {
    var c := ClassFromObject(o).value;
    var entries := TryMap(NamedDefinition, o.attributes).value;
    assert IndexMaps.Keys(entries) == Names(o.attributes);
    IndexMaps.FromDistinctPairs(entries);
    assert c.attributes == Some(entries);
    LinkmlImport.ClassObjectContents(c);
    var es := PatternEntries(o.attributes);
    PatternEntriesDistinct(o.attributes);
    IndexMaps.FromDistinctPairs(es);
    assert c.slotUsage.UnwrapOr([]) == es;
    assert entries[i] == (o.attributes[i].name, AttributeToDefinition(o.attributes[i]).value);
  }

  /** The slot-usage loop of `From<Object> for ClassDefinition`. */
  method CollectSlotUsage(attrs: seq<AttributeData>) returns (usage: IndexMaps.IndexMap<SlotUsage>)
    ensures usage == IndexMaps.FromPairs(PatternEntries(attrs))
  {
    usage := [];
    for i := 0 to |attrs|
      invariant usage == IndexMaps.FromPairs(PatternEntries(attrs[..i]))
    {
      PatternEntriesSnoc(attrs, i);
      var pattern := FindOption(attrs[i].options, "pattern");
      if pattern.Some? {
        var entry := (attrs[i].name, SlotUsage(Some(Options.Value(pattern.value))));
        assert PatternUsage(attrs[i]) == Some(entry.1);
        IndexMaps.FromPairsSnoc(PatternEntries(attrs[..i]), entry);
        usage := IndexMaps.Insert(usage, entry.0, entry.1);
      }
    }
    assert attrs[..|attrs|] == attrs;
  }

  lemma PatternEntriesSnoc(attrs: seq<AttributeData>, i: nat)
    requires i < |attrs|
    ensures PatternUsage(attrs[i]).None? ==> PatternEntries(attrs[..i + 1]) == PatternEntries(attrs[..i])
    ensures PatternUsage(attrs[i]).Some? ==>
      PatternEntries(attrs[..i + 1]) == PatternEntries(attrs[..i]) + [(attrs[i].name, PatternUsage(attrs[i]).value)]
  {
    assert attrs[..i + 1][..i] == attrs[..i];
    assert PatternEntries(attrs[..i]) + [] == PatternEntries(attrs[..i]);
  }

  /** `From<Object> for ClassDefinition`. */
  method ObjectToClass(o: ObjectData) returns (r: Result<ClassDefinition>)
    ensures r == ClassFromObject(o)
  {
    var entries := TryMap(NamedDefinition, o.attributes);
    if entries.Err? {
      return Err(entries.error, entries.panicked);
    }
    var usage := CollectSlotUsage(o.attributes);
    r := Ok(ClassDefinition(Some(o.docstring), o.term, [], o.parent, None,
      if usage == [] then None else Some(usage),
      Some(IndexMaps.FromPairs(entries.value)), []));
  }

  // ---------------------------------------------------------------------
  // Enumerations
  // ---------------------------------------------------------------------

  /** An enumeration value as a permissible value: it is both the meaning
   *  and the description. */
  function PermissibleOf(v: string): PermissibleValue
  {
    PermissibleValue(None, Some(v), Some(v))
  }

  /** The entries of the enumeration's map, in key order. */
  function PermissibleEntries(mappings: OrderedMaps.OrderedMap<string>): (r: seq<(string, PermissibleValue)>)
    ensures |r| == |mappings|
    ensures forall i :: 0 <= i < |mappings| ==> r[i] == (mappings[i].0, PermissibleOf(mappings[i].1))
  {
    seq(|mappings|, i requires 0 <= i < |mappings| => (mappings[i].0, PermissibleOf(mappings[i].1)))
  }

  /** `From<Enumeration> for EnumDefinition`. */
  function EnumDefinitionOf(e: EnumData): EnumDefinition
  {
    EnumDefinition(Some(e.docstring), IndexMaps.FromPairs(PermissibleEntries(e.mappings)))
  }

  /** `From<Enumeration> for EnumDefinition`: the insertion loop. */
  method EnumToDefinition(e: EnumData) returns (d: EnumDefinition)
    ensures d == EnumDefinitionOf(e)
  {
    var values: IndexMaps.IndexMap<PermissibleValue> := [];
    for i := 0 to |e.mappings|
      invariant values == IndexMaps.FromPairs(PermissibleEntries(e.mappings[..i]))
    {
      var (key, value) := e.mappings[i];
      var entry := (key, PermissibleValue(None, Some(value), Some(value)));
      assert PermissibleEntries(e.mappings[..i + 1]) == PermissibleEntries(e.mappings[..i]) + [entry];
      IndexMaps.FromPairsSnoc(PermissibleEntries(e.mappings[..i]), entry);
      values := IndexMaps.Insert(values, entry.0, entry.1);
    }
    assert e.mappings[..|e.mappings|] == e.mappings;
    d := EnumDefinition(Some(e.docstring), values);
  }

  /** The keys of a `BTreeMap` are distinct, so none is overwritten. */
  lemma PermissibleKeysDistinct(m: OrderedMaps.OrderedMap<string>)
    requires OrderedMaps.Valid(m)
    ensures Distinct(IndexMaps.Keys(PermissibleEntries(m)))
  {
    var keys := IndexMaps.Keys(PermissibleEntries(m));
    forall i, j | 0 <= i < j < |keys| ensures keys[i] != keys[j] {
      assert Less(m[i].0, m[j].0);
      if m[i].0 == m[j].0 {
        LessIrreflexive(m[i].0);
      }
    }
  }

  /** A key reads as a permissible value exactly when the enumeration maps
   *  it, and the value carries the mapped text. */
  lemma {:induction false} PermissibleGet(m: OrderedMaps.OrderedMap<string>, k: string)
    ensures var v := OrderedMaps.Get(m, k);
      IndexMaps.Get(PermissibleEntries(m), k) == if v.Some? then Some(PermissibleOf(v.value)) else None
  {
    if m != [] {
      assert PermissibleEntries(m)[1..] == PermissibleEntries(m[1..]);
      PermissibleGet(m[1..], k);
    }
  }

  /** Exported and imported again, an enumeration has the same mappings and
   *  docstring. */
  lemma EnumRoundTrip(e: EnumData)
    requires OrderedMaps.Valid(e.mappings)
    ensures var back := LinkmlImport.EnumFromDefinition(EnumDefinitionOf(e));
      back.mappings == e.mappings && back.docstring == e.docstring
  {
    var d := EnumDefinitionOf(e);
    var back := LinkmlImport.EnumFromDefinition(d);
    PermissibleKeysDistinct(e.mappings);
    IndexMaps.FromDistinctPairs(PermissibleEntries(e.mappings));
    forall k ensures OrderedMaps.Get(back.mappings, k) == OrderedMaps.Get(e.mappings, k) {
      LinkmlImport.EnumFromDefinitionGet(d, k);
      PermissibleGet(e.mappings, k);
    }
    OrderedMaps.SameEntries(back.mappings, e.mappings);
  }

  // ---------------------------------------------------------------------
  // Global slots
  // ---------------------------------------------------------------------

  /** The attributes of an object. */
  function AttributesOf(o: ObjectData): seq<AttributeData>
  {
    o.attributes
  }

  /** Every attribute of every object as a `(name, definition)` entry,
   *  object by object. */
  function SlotEntries(objects: seq<ObjectData>): Result<seq<(string, AttributeDefinition)>>
  {
    TryMap(NamedDefinition, ConcatMap(AttributesOf, objects))
  }

  /** Entries that occur more than once in `es`. */
  function Repeated(es: seq<(string, AttributeDefinition)>): ((string, AttributeDefinition)) -> bool
  {
    p => multiset(es)[p] > 1
  }

  /** `extract_slots` as written: the entries are collected into an
   *  `IndexMap` first, which keeps one entry per name, and the repeats are
   *  then counted in that map. */
  function ExtractSlotsAsWritten(objects: seq<ObjectData>): Result<IndexMaps.IndexMap<AttributeDefinition>>
  {
    var entries := SlotEntries(objects);
    if entries.Err? then Err(entries.error, entries.panicked)
    else
      var attributes := IndexMaps.FromPairs(entries.value);
      Ok(IndexMaps.FromPairs(Filter(Repeated(attributes), attributes)))
  }

  /** No entry repeats in a map with one entry per name, so the function as
   *  written never finds a global slot. */
  lemma ExtractSlotsAsWrittenEmpty(objects: seq<ObjectData>)
    requires ExtractSlotsAsWritten(objects).Ok?
    ensures ExtractSlotsAsWritten(objects).value == []
  {
    var attributes := IndexMaps.FromPairs(SlotEntries(objects).value);
    IndexMaps.FromPairsContents(SlotEntries(objects).value);
    assert Distinct(attributes) by {
      forall i, j | 0 <= i < j < |attributes| ensures attributes[i] != attributes[j] {
        assert IndexMaps.Keys(attributes)[i] != IndexMaps.Keys(attributes)[j];
      }
    }
    DuplicateSetEmpty(attributes);
  }

  /** `extract_slots` as its documentation intends: an entry is a global
   *  slot when the same name and definition occur more than once across
   *  the objects' attributes. */
  function ExtractSlots(objects: seq<ObjectData>): Result<IndexMaps.IndexMap<AttributeDefinition>>
  {
    var entries := SlotEntries(objects);
    if entries.Err? then Err(entries.error, entries.panicked)
    else Ok(IndexMaps.FromPairs(Filter(Repeated(entries.value), entries.value)))
  }

  /** A name is a global slot exactly when some attribute entry of that name
   *  occurs more than once, and the slot holds such a repeated definition. */
  lemma ExtractSlotsContents(objects: seq<ObjectData>)
    requires ExtractSlots(objects).Ok?
    ensures var es := SlotEntries(objects).value;
      var slots := ExtractSlots(objects).value;
      && IndexMaps.Valid(slots)
      && (forall k :: k in IndexMaps.Keys(slots) <==>
            exists i :: 0 <= i < |es| && es[i].0 == k && multiset(es)[es[i]] > 1)
      && (forall k :: IndexMaps.Get(slots, k).Some? ==> multiset(es)[(k, IndexMaps.Get(slots, k).value)] > 1)
  {
    var es := SlotEntries(objects).value;
    var kept := Filter(Repeated(es), es);
    IndexMaps.FromPairsContents(kept);
    forall k ensures k in IndexMaps.Keys(kept) <==>
      exists i :: 0 <= i < |es| && es[i].0 == k && multiset(es)[es[i]] > 1
    {
      IndexMaps.FilterKeys(Repeated(es), es, k);
    }
    forall k | IndexMaps.Get(IndexMaps.FromPairs(kept), k).Some?
      ensures multiset(es)[(k, IndexMaps.Get(IndexMaps.FromPairs(kept), k).value)] > 1
    {
      IndexMaps.FilterGet(Repeated(es), es, k);
    }
  }

  /** Two objects that share one attribute: the intended function makes it a
   *  global slot, the function as written finds none. */
  lemma SharedAttributeIsSlot(x: ObjectData, y: ObjectData)
    requires |x.attributes| == 1 && y.attributes == x.attributes
    requires AttributeToDefinition(x.attributes[0]).Ok?
    ensures var a := x.attributes[0];
      ExtractSlots([x, y]) == Ok([(a.name, AttributeToDefinition(a).value)])
    ensures ExtractSlotsAsWritten([x, y]) == Ok([])
  {
    var a := x.attributes[0];
    var e := (a.name, AttributeToDefinition(a).value);
    assert ConcatMap(AttributesOf, [x, y]) == [a, a] by {
      SharedAttributes(x, y);
    }
    assert SlotEntries([x, y]) == Ok([e, e]) by {
      TwiceNamed(a);
    }
    RepeatedPairSlot(e);
    ExtractSlotsAsWrittenEmpty([x, y]);
  }

  /** Two objects with the same single attribute list it twice. */
  lemma SharedAttributes(x: ObjectData, y: ObjectData)
    requires |x.attributes| == 1 && y.attributes == x.attributes
    ensures ConcatMap(AttributesOf, [x, y]) == [x.attributes[0], x.attributes[0]]
  {
    assert ConcatMap(AttributesOf, [x]) == x.attributes by {
      assert [x][..0] == [];
    }
    assert [x, y][..1] == [x];
  }

  /** An attribute listed twice gives its named definition twice. */
  lemma TwiceNamed(a: AttributeData)
    requires AttributeToDefinition(a).Ok?
    ensures var e := (a.name, AttributeToDefinition(a).value);
      TryMap(NamedDefinition, [a, a]) == Ok([e, e])
  {
    var e := (a.name, AttributeToDefinition(a).value);
    assert NamedDefinition(a) == Ok(e);
    TryMapAllOk(NamedDefinition, [a, a], [e, e]);
  }

  /** An entry that occurs twice is the one global slot. */
  lemma RepeatedPairSlot(e: (string, AttributeDefinition))
    ensures IndexMaps.FromPairs(Filter(Repeated([e, e]), [e, e])) == [e]
  {
    assert multiset([e, e])[e] == 2;
    assert Filter(Repeated([e, e]), [e, e]) == [e, e] by {
      FilterKeepsAll(Repeated([e, e]), [e, e]);
    }
    assert IndexMaps.FromPairs([e]) == [e] by {
      assert [e][..0] == [];
    }
    assert [e, e][..1] == [e];
  }

  /** Names in `keys`. */
  function InKeys(keys: seq<string>): string -> bool
  {
    n => n in keys
  }

  /** Entries whose name is not in `keys`. */
  function NotInKeys(keys: seq<string>): ((string, AttributeDefinition)) -> bool
  {
    (p: (string, AttributeDefinition)) => p.0 !in keys
  }

  /** `remove_global_slots`: the class's attributes that are global slots
   *  become slot references; the others stay local attributes. */
  function RemoveGlobalSlots(c: ClassDefinition, slots: IndexMaps.IndexMap<AttributeDefinition>): ClassDefinition
  {
    var attrs := c.attributes.UnwrapOr([]);
    var global := IndexMaps.Keys(slots);
    c.(slots := Filter(InKeys(global), IndexMaps.Keys(attrs)),
       attributes := Some(IndexMaps.FromPairs(Filter(NotInKeys(global), attrs))))
  }

  /** Leaving out some entries changes nothing for the other keys and
   *  leaves the left-out keys without a value. */
  lemma {:induction false} LastValueWithout(ps: seq<(string, AttributeDefinition)>, keys: seq<string>, k: string)
    ensures IndexMaps.LastValue(Filter(NotInKeys(keys), ps), k) == if k in keys then None else IndexMaps.LastValue(ps, k)
  {
    if ps != [] {
      var init := ps[..|ps| - 1];
      var last := ps[|ps| - 1];
      LastValueWithout(init, keys, k);
      assert ps == init + [last];
      var p := NotInKeys(keys);
      FilterSnoc(p, init, last);
      IndexMaps.LastValueSnoc(init, last, k);
      IndexMaps.LastValueSnoc(Filter(p, init), last, k);
      assert p(last) <==> last.0 !in keys;
      if !p(last) {
        assert Filter(p, init) + [] == Filter(p, init);
      }
    }
  }

  /** Every attribute of the class is either a slot reference or a local
   *  attribute, never both: a name is referenced exactly when it is a
   *  global slot, and a local attribute reads as before exactly when it is
   *  not. The other fields are untouched. */
  lemma RemoveGlobalSlotsPartition(c: ClassDefinition, slots: IndexMaps.IndexMap<AttributeDefinition>)
    requires c.attributes.Some? ==> IndexMaps.Valid(c.attributes.value)
    ensures var r := RemoveGlobalSlots(c, slots);
      var attrs := c.attributes.UnwrapOr([]);
      && Distinct(r.slots)
      && (forall k :: k in r.slots <==> k in IndexMaps.Keys(slots) && k in IndexMaps.Keys(attrs))
      && r.attributes.Some? && IndexMaps.Valid(r.attributes.value)
      && (forall k :: IndexMaps.Get(r.attributes.value, k)
            == if k in IndexMaps.Keys(slots) then None else IndexMaps.Get(attrs, k))
      && r.(slots := c.slots, attributes := c.attributes) == c
  {
    var attrs := c.attributes.UnwrapOr([]);
    var global := IndexMaps.Keys(slots);
    var r := RemoveGlobalSlots(c, slots);
    FilterDistinct(InKeys(global), IndexMaps.Keys(attrs));
    forall k ensures k in r.slots <==> k in global && k in IndexMaps.Keys(attrs) {
      FilterMembers(InKeys(global), IndexMaps.Keys(attrs), k);
    }
    var kept := Filter(NotInKeys(global), attrs);
    IndexMaps.FromPairsContents(kept);
    IndexMaps.FromPairsContents(attrs);
    IndexMaps.FromDistinctPairs(attrs);
    forall k ensures IndexMaps.Get(r.attributes.value, k) == if k in global then None else IndexMaps.Get(attrs, k) {
      LastValueWithout(attrs, global, k);
    }
  }

  // ---------------------------------------------------------------------
  // The schema
  // ---------------------------------------------------------------------

  /** The converted classes under the names of their objects. */
  function ClassEntries(objects: seq<ObjectData>, classes: seq<ClassDefinition>): (r: IndexMaps.IndexMap<ClassDefinition>)
    requires |classes| == |objects|
    ensures |r| == |objects| && IndexMaps.Keys(r) == ObjectNames(objects)
    ensures forall i :: 0 <= i < |objects| ==> r[i] == (objects[i].name, classes[i])
  {
    seq(|objects|, i requires 0 <= i < |objects| => (objects[i].name, classes[i]))
  }

  /** An enumeration as its `(name, definition)` entry. */
  function EnumEntry(e: EnumData): (string, EnumDefinition)
  {
    (e.name, EnumDefinitionOf(e))
  }

  /** Every class with the global slots taken out, in place. */
  function WithoutGlobalSlots(classes: IndexMaps.IndexMap<ClassDefinition>, slots: IndexMaps.IndexMap<AttributeDefinition>)
    : (r: IndexMaps.IndexMap<ClassDefinition>)
    ensures |r| == |classes|
    ensures forall i :: 0 <= i < |classes| ==> r[i] == (classes[i].0, RemoveGlobalSlots(classes[i].1, slots))
  {
    seq(|classes|, i requires 0 <= i < |classes| => (classes[i].0, RemoveGlobalSlots(classes[i].1, slots)))
  }

  /** The class named first in the class order, if there is one, becomes the
   *  tree root. */
  function MarkRoot(classes: IndexMaps.IndexMap<ClassDefinition>, classOrder: seq<string>): IndexMaps.IndexMap<ClassDefinition>
  {
    if classOrder == [] then classes
    else
      var c := IndexMaps.Get(classes, classOrder[0]);
      if c.None? then classes else IndexMaps.Insert(classes, classOrder[0], c.value.(treeRoot := Some(true)))
  }

  /** `From<DataModel> for LinkML` once the global slots are extracted,
   *  given the topological class order of the model's dependency graph. */
  function LinkmlWithSlots(m: Model, classOrder: seq<string>, extracted: Result<IndexMaps.IndexMap<AttributeDefinition>>)
    : Result<LinkML>
  {
    var config := ConfigOrDefault(m.config);
    var name := m.name.UnwrapOr(UnnamedModel);
    var converted := TryMap(ClassFromObject, m.objects);
    if converted.Err? then Err(converted.error, converted.panicked)
    else if extracted.Err? then Err(extracted.error, extracted.panicked)
    else
      var entries := ClassEntries(m.objects, converted.value);
      var classes := MarkRoot(WithoutGlobalSlots(IndexMaps.FromPairs(entries), extracted.value), classOrder);
      Ok(LinkML(config.prefix, name, name, None, None, [],
        IndexMaps.FromPairs(config.prefixes.UnwrapOr([])), config.prefix, Some("string"), [TypesImport],
        classes, extracted.value, IndexMaps.FromPairs(seq(|m.enums|, i requires 0 <= i < |m.enums| => EnumEntry(m.enums[i])))))
  }

  /** `From<DataModel> for LinkML` as written: its slots come from
   *  `extract_slots` as written. */
  function LinkmlOf(m: Model, classOrder: seq<string>): (r: Result<LinkML>)
    ensures r.Err? ==> r.panicked
  {
    LinkmlWithSlots(m, classOrder, ExtractSlotsAsWritten(m.objects))
  }

  /** `From<DataModel> for LinkML` with the slot extraction its
   *  documentation describes: shared attributes become global slots. */
  function LinkmlOfIntended(m: Model, classOrder: seq<string>): (r: Result<LinkML>)
    ensures r.Err? ==> r.panicked
  {
    LinkmlWithSlots(m, classOrder, ExtractSlots(m.objects))
  }

  /** Converting the classes panics exactly when some object's conversion
   *  does; the global slots then convert the same attributes again and
   *  cannot panic. */
  lemma LinkmlOfOk(m: Model, classOrder: seq<string>)
    ensures LinkmlOf(m, classOrder).Ok? <==> forall i :: 0 <= i < |m.objects| ==> ClassFromObject(m.objects[i]).Ok?
  {
    if forall i :: 0 <= i < |m.objects| ==> ClassFromObject(m.objects[i]).Ok? {
      assert TryMap(ClassFromObject, m.objects).Ok?;
      var all := ConcatMap(AttributesOf, m.objects);
      forall k | 0 <= k < |all| ensures NamedDefinition(all[k]).Ok? {
        ConcatMapMember(AttributesOf, m.objects, all[k]);
        var i :| 0 <= i < |m.objects| && all[k] in m.objects[i].attributes;
        var j :| 0 <= j < |m.objects[i].attributes| && m.objects[i].attributes[j] == all[k];
        assert ClassFromObject(m.objects[i]).Ok?;
      }
    } else {
      var i :| 0 <= i < |m.objects| && ClassFromObject(m.objects[i]).Err?;
      assert TryMap(ClassFromObject, m.objects).Err?;
    }
  }

  /** Taking out the global slots keeps the class names and changes each
   *  class by `RemoveGlobalSlots` only. */
  lemma {:induction false} WithoutGlobalSlotsGet(classes: IndexMaps.IndexMap<ClassDefinition>, slots: IndexMaps.IndexMap<AttributeDefinition>, k: string)
    ensures IndexMaps.Keys(WithoutGlobalSlots(classes, slots)) == IndexMaps.Keys(classes)
    ensures var c := IndexMaps.Get(classes, k);
      IndexMaps.Get(WithoutGlobalSlots(classes, slots), k) == if c.Some? then Some(RemoveGlobalSlots(c.value, slots)) else None
  {
    if classes != [] {
      assert WithoutGlobalSlots(classes, slots)[1..] == WithoutGlobalSlots(classes[1..], slots);
      WithoutGlobalSlotsGet(classes[1..], slots, k);
    }
  }

  /** Marking the root keeps the class names and touches the root only. */
  lemma MarkRootGet(classes: IndexMaps.IndexMap<ClassDefinition>, classOrder: seq<string>, k: string)
    ensures IndexMaps.Keys(MarkRoot(classes, classOrder)) == IndexMaps.Keys(classes)
    ensures var c := IndexMaps.Get(classes, k);
      IndexMaps.Get(MarkRoot(classes, classOrder), k)
        == if classOrder != [] && k == classOrder[0] && c.Some? then Some(c.value.(treeRoot := Some(true))) else c
  {
    if classOrder != [] {
      var c := IndexMaps.Get(classes, classOrder[0]);
      if c.Some? {
        IndexMaps.InsertGet(classes, classOrder[0], c.value.(treeRoot := Some(true)), k);
        IndexMaps.InsertKeys(classes, classOrder[0], c.value.(treeRoot := Some(true)));
      }
    }
  }


  /** The schema is named after the model, or "Unnamed Data Model", and
   *  takes its id and default prefix from the configuration's prefix; it
   *  imports the LinkML types and defaults to string ranges. It has one
   *  class per distinct object name, one enum per distinct enumeration
   *  name, and the extracted slots. */
  lemma LinkmlWithSlotsContents(m: Model, classOrder: seq<string>, extracted: Result<IndexMaps.IndexMap<AttributeDefinition>>)
    requires LinkmlWithSlots(m, classOrder, extracted).Ok?
    ensures var l := LinkmlWithSlots(m, classOrder, extracted).value;
      var config := ConfigOrDefault(m.config);
      && l.id == config.prefix && l.defaultPrefix == config.prefix
      && l.name == m.name.UnwrapOr(UnnamedModel) && l.title == l.name
      && l.description.None? && l.license.None? && l.seeAlso == []
      && l.defaultRange == Some("string") && l.imports == [TypesImport]
      && IndexMaps.Keys(l.prefixes) == Dedup(IndexMaps.Keys(config.prefixes.UnwrapOr([])))
      && l.slots == extracted.value
      && IndexMaps.Keys(l.classes) == Dedup(ObjectNames(m.objects))
      && IndexMaps.Keys(l.enums) == Dedup(EnumNames(m.enums))
  {
    var converted := TryMap(ClassFromObject, m.objects).value;
    var entries := ClassEntries(m.objects, converted);
    var slots := extracted.value;
    IndexMaps.FromPairsContents(entries);
    WithoutGlobalSlotsGet(IndexMaps.FromPairs(entries), slots, "");
    MarkRootGet(WithoutGlobalSlots(IndexMaps.FromPairs(entries), slots), classOrder, "");
    var es := seq(|m.enums|, i requires 0 <= i < |m.enums| => EnumEntry(m.enums[i]));
    assert IndexMaps.Keys(es) == EnumNames(m.enums);
    IndexMaps.FromPairsContents(es);
    IndexMaps.FromPairsContents(ConfigOrDefault(m.config).prefixes.UnwrapOr([]));
  }

  /** As written, the conversion has no global slots; everything else is as
   *  `LinkmlWithSlotsContents` says. */
  lemma LinkmlOfContents(m: Model, classOrder: seq<string>)
    requires LinkmlOf(m, classOrder).Ok?
    ensures var l := LinkmlOf(m, classOrder).value;
      var config := ConfigOrDefault(m.config);
      && l.id == config.prefix && l.defaultPrefix == config.prefix
      && l.name == m.name.UnwrapOr(UnnamedModel) && l.title == l.name
      && l.slots == []
      && IndexMaps.Keys(l.classes) == Dedup(ObjectNames(m.objects))
      && IndexMaps.Keys(l.enums) == Dedup(EnumNames(m.enums))
  {
    LinkmlWithSlotsContents(m, classOrder, ExtractSlotsAsWritten(m.objects));
    ExtractSlotsAsWrittenEmpty(m.objects);
  }

  /** With distinct object names, each object's class is its converted
   *  class with the extracted slots taken out, marked as the tree root when
   *  the class order names it first. */
  lemma LinkmlWithSlotsClassAt(m: Model, classOrder: seq<string>, extracted: Result<IndexMaps.IndexMap<AttributeDefinition>>, i: nat)
    requires LinkmlWithSlots(m, classOrder, extracted).Ok? && Distinct(ObjectNames(m.objects)) && i < |m.objects|
    ensures var l := LinkmlWithSlots(m, classOrder, extracted).value;
      var o := m.objects[i];
      && IndexMaps.Get(l.classes, o.name).Some?
      && IndexMaps.Get(l.classes, o.name).value
           == RemoveGlobalSlots(ClassFromObject(o).value, extracted.value)
                .(treeRoot := if classOrder != [] && classOrder[0] == o.name then Some(true) else None)
  {
    var o := m.objects[i];
    var converted := TryMap(ClassFromObject, m.objects).value;
    var entries := ClassEntries(m.objects, converted);
    var slots := extracted.value;
    IndexMaps.FromPairsEntry(entries, i);
    WithoutGlobalSlotsGet(IndexMaps.FromPairs(entries), slots, o.name);
    MarkRootGet(WithoutGlobalSlots(IndexMaps.FromPairs(entries), slots), classOrder, o.name);
  }

  /** Taking out no slots leaves a converted class as it is. */
  lemma RemoveNoSlots(c: ClassDefinition)
    requires c.slots == [] && c.attributes.Some? && IndexMaps.Valid(c.attributes.value)
    ensures RemoveGlobalSlots(c, []) == c
  {
    var attrs := c.attributes.value;
    var refs := Filter(InKeys([]), IndexMaps.Keys(attrs));
    if refs != [] {
      FilterMembers(InKeys([]), IndexMaps.Keys(attrs), refs[0]);
      assert false;
    }
    FilterKeepsAll(NotInKeys([]), attrs);
    IndexMaps.FromDistinctPairs(attrs);
  }

  /** As written, with distinct object names each object's class is its
   *  converted class, every attribute kept, marked as the tree root when
   *  the class order names it first. */
  lemma LinkmlClassAt(m: Model, classOrder: seq<string>, i: nat)
    requires LinkmlOf(m, classOrder).Ok? && Distinct(ObjectNames(m.objects)) && i < |m.objects|
    ensures var l := LinkmlOf(m, classOrder).value;
      var o := m.objects[i];
      && IndexMaps.Get(l.classes, o.name).Some?
      && IndexMaps.Get(l.classes, o.name).value
           == ClassFromObject(o).value.(treeRoot := if classOrder != [] && classOrder[0] == o.name then Some(true) else None)
  {
    var o := m.objects[i];
    LinkmlWithSlotsClassAt(m, classOrder, ExtractSlotsAsWritten(m.objects), i);
    ExtractSlotsAsWrittenEmpty(m.objects);
    assert ClassFromObject(o).Ok? by {
      assert TryMap(ClassFromObject, m.objects).Ok?;
    }
    ClassFromObjectContents(o);
    RemoveNoSlots(ClassFromObject(o).value);
  }

  /** With the intended extraction, the slots are the shared attribute
   *  definitions and, with distinct object names, each object's class is
   *  its converted class without them. */
  lemma LinkmlIntendedClassAt(m: Model, classOrder: seq<string>, i: nat)
    requires LinkmlOfIntended(m, classOrder).Ok? && Distinct(ObjectNames(m.objects)) && i < |m.objects|
    ensures var l := LinkmlOfIntended(m, classOrder).value;
      var o := m.objects[i];
      && l.slots == ExtractSlots(m.objects).value
      && IndexMaps.Get(l.classes, o.name).Some?
      && IndexMaps.Get(l.classes, o.name).value
           == RemoveGlobalSlots(ClassFromObject(o).value, l.slots)
                .(treeRoot := if classOrder != [] && classOrder[0] == o.name then Some(true) else None)
  {
    LinkmlWithSlotsClassAt(m, classOrder, ExtractSlots(m.objects), i);
  }

  /** Exactly one class is the tree root: the one the class order names
   *  first, when that is an object of the model. */
  lemma LinkmlRoot(m: Model, classOrder: seq<string>, extracted: Result<IndexMaps.IndexMap<AttributeDefinition>>, k: string)
    requires LinkmlWithSlots(m, classOrder, extracted).Ok?
    ensures var c := IndexMaps.Get(LinkmlWithSlots(m, classOrder, extracted).value.classes, k);
      (c.Some? && c.value.treeRoot == Some(true)) <==> (classOrder != [] && k == classOrder[0] && k in ObjectNames(m.objects))
  {
    var converted := TryMap(ClassFromObject, m.objects).value;
    var entries := ClassEntries(m.objects, converted);
    var slots := extracted.value;
    ConvertedNotRoot(m.objects);
    EntriesGet(m.objects, converted, k);
    WithoutGlobalSlotsGet(IndexMaps.FromPairs(entries), slots, k);
    MarkRootGet(WithoutGlobalSlots(IndexMaps.FromPairs(entries), slots), classOrder, k);
  }

  /** No converted class is a tree root yet. */
  lemma ConvertedNotRoot(objects: seq<ObjectData>)
    requires TryMap(ClassFromObject, objects).Ok?
    ensures forall i :: 0 <= i < |objects| ==> TryMap(ClassFromObject, objects).value[i].treeRoot.None?
  {
  }

  /** A name has a class exactly when it names an object; none is a root. */
  lemma EntriesGet(objects: seq<ObjectData>, classes: seq<ClassDefinition>, k: string)
    requires |classes| == |objects| && forall i :: 0 <= i < |objects| ==> classes[i].treeRoot.None?
    ensures var c := IndexMaps.Get(IndexMaps.FromPairs(ClassEntries(objects, classes)), k);
      (c.Some? <==> k in ObjectNames(objects)) && (c.Some? ==> c.value.treeRoot.None?)
  {
    var entries := ClassEntries(objects, classes);
    IndexMaps.FromPairsContents(entries);
    IndexMaps.LastValueIn(entries, k);
  }

  /** `classes.values_mut().for_each(|c| remove_global_slots(c, &slots))`. */
  method RemoveAllGlobalSlots(classes: IndexMaps.IndexMap<ClassDefinition>, slots: IndexMaps.IndexMap<AttributeDefinition>)
    returns (r: IndexMaps.IndexMap<ClassDefinition>)
    ensures r == WithoutGlobalSlots(classes, slots)
  {
    r := classes;
    for i := 0 to |r|
      invariant |r| == |classes|
      invariant forall j :: 0 <= j < i ==> r[j] == (classes[j].0, RemoveGlobalSlots(classes[j].1, slots))
      invariant forall j :: i <= j < |r| ==> r[j] == classes[j]
    {
      r := r[i := (r[i].0, RemoveGlobalSlots(r[i].1, slots))];
    }
  }

  /** `tree::get_topological_order(&tree::dependency_graph(&model))`. */
  method ClassOrder(objects: seq<ObjectData>, order: seq<string>) returns (classOrder: seq<string>)
    requires Distinct(order) && forall k :: k in order <==> k in ObjectNames(objects)
    ensures Distinct(classOrder) && forall k :: k in classOrder <==> k in ObjectNames(objects)
  {
    var g := Trees.DependencyGraph(objects, order);
    Trees.EdgesMatchEntries(ObjectNames(objects), Trees.AdjacencySpec(objects, Trees.NameSet(objects)), order);
    classOrder := Trees.TopologicalOrder(g);
    forall k ensures k in classOrder <==> k in ObjectNames(objects) {
      if k in ObjectNames(objects) {
        var i :| 0 <= i < |objects| && ObjectNames(objects)[i] == k;
        assert g.labels[i] == k;
      }
    }
  }

  /** `From<DataModel> for LinkML`. `order` is the iteration order of the
   *  `HashMap` the dependency graph is built from, which the model takes as
   *  given; `classOrder` is the topological order computed from that graph. */
  method LinkmlFromModel(m: Model, order: seq<string>) returns (r: Result<LinkML>, classOrder: seq<string>)
    requires Distinct(order) && forall k :: k in order <==> k in ObjectNames(m.objects)
    ensures r == LinkmlOf(m, classOrder)
    ensures r.Ok? ==> Distinct(classOrder) && forall k :: k in classOrder <==> k in ObjectNames(m.objects)
  {
    classOrder := [];
    var config := ConfigOrDefault(m.config);
    var prefixes := IndexMaps.FromPairs(config.prefixes.UnwrapOr([]));
    var name := m.name.UnwrapOr(UnnamedModel);
    var converted := TryMap(ClassFromObject, m.objects);
    if converted.Err? {
      return Err(converted.error, converted.panicked), classOrder;
    }
    var slots := ExtractSlotsAsWritten(m.objects);
    if slots.Err? {
      return Err(slots.error, slots.panicked), classOrder;
    }
    var classes;
    classes, classOrder := BuildClasses(m.objects, converted.value, slots.value, order);
    var enums := IndexMaps.FromPairs(seq(|m.enums|, i requires 0 <= i < |m.enums| => EnumEntry(m.enums[i])));
    r := Ok(LinkML(config.prefix, name, name, None, None, [], prefixes, config.prefix, Some("string"),
      [TypesImport], classes, slots.value, enums));
  }

  /** The class part of `From<DataModel> for LinkML`: the converted classes
   *  without their global slots, the first class in topological order
   *  marked as the tree root. */
  method BuildClasses(objects: seq<ObjectData>, converted: seq<ClassDefinition>,
                      slots: IndexMaps.IndexMap<AttributeDefinition>, order: seq<string>)
    returns (classes: IndexMaps.IndexMap<ClassDefinition>, classOrder: seq<string>)
    requires |converted| == |objects|
    requires Distinct(order) && forall k :: k in order <==> k in ObjectNames(objects)
    ensures classes == MarkRoot(WithoutGlobalSlots(IndexMaps.FromPairs(ClassEntries(objects, converted)), slots), classOrder)
    ensures Distinct(classOrder) && forall k :: k in classOrder <==> k in ObjectNames(objects)
  {
    classes := IndexMaps.FromPairs(ClassEntries(objects, converted));
    classes := RemoveAllGlobalSlots(classes, slots);
    classOrder := ClassOrder(objects, order);
    if classOrder != [] {
      var root := IndexMaps.Get(classes, classOrder[0]);
      if root.Some? {
        classes := IndexMaps.Insert(classes, classOrder[0], root.value.(treeRoot := Some(true)));
      }
    }
  }
}
