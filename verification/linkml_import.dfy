/** `From<LinkML> for DataModel` and the conversions it is built from:
 *  classes become objects, slots attributes, enums enumerations. */
module LinkmlImport {
  import opened Wrappers
  import IndexMaps
  import opened LinkmlSchema
  import opened Attributes
  import opened Objects
  import opened Models
  import Options
  import OrderedMaps
  import opened Seqs

  // ---------------------------------------------------------------------
  // Attributes
  // ---------------------------------------------------------------------

  /** `From<AttributeDefinition> for Attribute`. The name is left empty for
   *  the caller to set. */
  function AttributeFromDefinition(def: AttributeDefinition): (r: AttributeData)
    ensures r.name == "" && |r.dtypes| == 1
    ensures def.range.Some? ==> r.dtypes[0] == def.range.value
    ensures def.range.None? ==> r.dtypes[0] == "string"
    ensures r.isArray <==> def.multivalued == Some(true)
    ensures r.isId <==> def.identifier == Some(true)
    ensures r.required <==> def.required == Some(true)
    ensures r.options == [] && r.defaultValue.None? && r.xml.None? && !r.isEnum
  {
    AttributeData("", def.multivalued.UnwrapOr(false), def.identifier.UnwrapOr(false),
      [def.range.UnwrapOr("string")], def.description.UnwrapOr(""), [], def.slotUri,
      def.required.UnwrapOr(false), None, None, false, None, None)
  }

  /** A definition converted and given the name it is stored under. */
  function NamedAttribute(name: string, def: AttributeDefinition): (r: AttributeData)
  {
    AttributeFromDefinition(def).(name := name)
  }

  /** The local attributes of a class, named by their keys, in map order. */
  function LocalAttributes(attrs: IndexMaps.IndexMap<AttributeDefinition>): (r: seq<AttributeData>)
    ensures |r| == |attrs|
    ensures forall i :: 0 <= i < |attrs| ==> r[i] == NamedAttribute(attrs[i].0, attrs[i].1)
  {
    if attrs == [] then []
    else LocalAttributes(attrs[..|attrs| - 1]) + [NamedAttribute(attrs[|attrs| - 1].0, attrs[|attrs| - 1].1)]
  }

  /** The index `iter_mut().find` stops at: the first attribute called `name`. */
  function FirstNamed(attrs: seq<AttributeData>, name: string): (r: Option<nat>)
    ensures r.Some? ==> r.value < |attrs| && attrs[r.value].name == name
    ensures r.Some? ==> forall j :: 0 <= j < r.value ==> attrs[j].name != name
    ensures r.None? ==> forall j :: 0 <= j < |attrs| ==> attrs[j].name != name
  {
    if attrs == [] then None
    else if attrs[0].name == name then Some(0)
    else
      var rest := FirstNamed(attrs[1..], name);
      if rest.Some? then Some(rest.value + 1) else None
  }

  /** One slot-usage entry: its pattern appended as a `Pattern` option to
   *  the first attribute of that name, if there are both. */
  function AddPattern(attrs: seq<AttributeData>, name: string, usage: SlotUsage): (r: seq<AttributeData>)
  {
    var j := FirstNamed(attrs, name);
    if usage.pattern.Some? && j.Some? then
      attrs[j.value := attrs[j.value].(options := attrs[j.value].options + [Options.Pattern(usage.pattern.value)])]
    else attrs
  }

  /** All slot-usage entries applied in map order. */
  function WithPatterns(attrs: seq<AttributeData>, usage: IndexMaps.IndexMap<SlotUsage>): seq<AttributeData>
  {
    if usage == [] then attrs
    else AddPattern(WithPatterns(attrs, usage[..|usage| - 1]), usage[|usage| - 1].0, usage[|usage| - 1].1)
  }

  /** The patterns one slot-usage entry gives an attribute called `name`. */
  function PatternOf(key: string, usage: SlotUsage, name: string): seq<Options.AttrOption>
  {
    if key == name && usage.pattern.Some? then [Options.Pattern(usage.pattern.value)] else []
  }

  /** The `Pattern` options the slot-usage entries called `name` give. */
  function PatternsFor(usage: IndexMaps.IndexMap<SlotUsage>, name: string): seq<Options.AttrOption>
  {
    if usage == [] then []
    else
      var last := usage[|usage| - 1];
      PatternsFor(usage[..|usage| - 1], name)
        + PatternOf(last.0, last.1, name)
  }

  /** With distinct names, one entry patches the attribute of its name only. */
  lemma AddPatternAt(attrs: seq<AttributeData>, key: string, usage: SlotUsage, i: nat)
    requires Distinct(Names(attrs)) && i < |attrs|
    ensures |AddPattern(attrs, key, usage)| == |attrs|
    ensures AddPattern(attrs, key, usage)[i]
      == attrs[i].(options := attrs[i].options + PatternOf(key, usage, attrs[i].name))
  {
    var j := FirstNamed(attrs, key);
    if j.Some? && attrs[i].name == key {
      assert Names(attrs)[i] == Names(attrs)[j.value];
      assert j.value == i;
    }
    if PatternOf(key, usage, attrs[i].name) == [] {
      assert attrs[i].options + [] == attrs[i].options;
    }
  }

  /** Each attribute gains exactly the patterns given under its name, and
   *  nothing else changes; a pattern for a name no attribute has is dropped. */
  lemma {:induction false} WithPatternsContents(attrs: seq<AttributeData>, usage: IndexMaps.IndexMap<SlotUsage>)
    requires Distinct(Names(attrs))
    ensures |WithPatterns(attrs, usage)| == |attrs|
    ensures forall i :: 0 <= i < |attrs| ==>
      WithPatterns(attrs, usage)[i] == attrs[i].(options := attrs[i].options + PatternsFor(usage, attrs[i].name))
  {
    if usage == [] {
      forall i | 0 <= i < |attrs|
        ensures attrs[i] == attrs[i].(options := attrs[i].options + PatternsFor(usage, attrs[i].name))
      {
        assert attrs[i].options + [] == attrs[i].options;
      }
    } else {
      var init := usage[..|usage| - 1];
      var last := usage[|usage| - 1];
      WithPatternsContents(attrs, init);
      var r := WithPatterns(attrs, init);
      assert Names(r) == Names(attrs);
      forall i | 0 <= i < |attrs|
        ensures AddPattern(r, last.0, last.1)[i]
          == attrs[i].(options := attrs[i].options + PatternsFor(usage, attrs[i].name))
      {
        AddPatternAt(r, last.0, last.1, i);
        var n := attrs[i].name;
        AppendAssoc(attrs[i].options, PatternsFor(init, n), PatternOf(last.0, last.1, n));
      }
      if attrs != [] {
        AddPatternAt(r, last.0, last.1, 0);
      }
    }
  }

  // ---------------------------------------------------------------------
  // Classes
  // ---------------------------------------------------------------------

  /** `From<ClassDefinition> for Object`. */
  function ClassObject(c: ClassDefinition): ObjectData
  {
    ObjectData(c.isA.UnwrapOr(""),
      WithPatterns(LocalAttributes(c.attributes.UnwrapOr([])), c.slotUsage.UnwrapOr([])),
      c.description.UnwrapOr(""), c.classUri, [], None, None)
  }

  lemma LocalNamesDistinct(attrs: IndexMaps.IndexMap<AttributeDefinition>)
    requires IndexMaps.Valid(attrs)
    ensures Distinct(Names(LocalAttributes(attrs)))
  {
    assert Names(LocalAttributes(attrs)) == IndexMaps.Keys(attrs);
  }

  /** One attribute per local attribute entry, named by its key and in map
   *  order, each carrying the patterns its slot usage names; the object is
   *  named after `is_a` and the docstring defaults to "". */
  lemma ClassObjectContents(c: ClassDefinition)
    requires c.attributes.Some? ==> IndexMaps.Valid(c.attributes.value)
    ensures var o := ClassObject(c);
      var attrs := c.attributes.UnwrapOr([]);
      && |o.attributes| == |attrs|
      && (forall i :: 0 <= i < |attrs| ==>
            o.attributes[i] == NamedAttribute(attrs[i].0, attrs[i].1).(options := PatternsFor(c.slotUsage.UnwrapOr([]), attrs[i].0)))
      && o.name == c.isA.UnwrapOr("") && o.docstring == c.description.UnwrapOr("")
      && o.term == c.classUri && o.parent.None?
  {
    var attrs := c.attributes.UnwrapOr([]);
    LocalNamesDistinct(attrs);
    WithPatternsContents(LocalAttributes(attrs), c.slotUsage.UnwrapOr([]));
  }

  /** The local attributes converted in map order. */
  method ConvertLocalAttributes(attrs: IndexMaps.IndexMap<AttributeDefinition>) returns (r: seq<AttributeData>)
    ensures r == LocalAttributes(attrs)
  {
    r := [];
    for i := 0 to |attrs|
      invariant r == LocalAttributes(attrs[..i])
    {
      assert attrs[..i + 1][..i] == attrs[..i];
      r := r + [NamedAttribute(attrs[i].0, attrs[i].1)];
    }
    assert attrs[..|attrs|] == attrs;
  }

  /** The slot-usage loop: each pattern patched into its attribute. */
  method ApplySlotUsage(attrs: seq<AttributeData>, usage: IndexMaps.IndexMap<SlotUsage>) returns (r: seq<AttributeData>)
    ensures r == WithPatterns(attrs, usage)
  {
    r := attrs;
    for i := 0 to |usage|
      invariant r == WithPatterns(attrs, usage[..i])
    {
      assert usage[..i + 1][..i] == usage[..i];
      var name := usage[i].0;
      var pattern := usage[i].1.pattern;
      if pattern.Some? {
        var j := FirstNamed(r, name);
        if j.Some? {
          var a := r[j.value];
          r := r[j.value := a.(options := a.options + [Options.Pattern(pattern.value)])];
        }
      }
    }
    assert usage[..|usage|] == usage;
  }

  /** `From<ClassDefinition> for Object`. */
  method ClassToObject(c: ClassDefinition) returns (o: ObjectData)
    ensures o == ClassObject(c)
  {
    var attributes: seq<AttributeData> := [];
    if c.attributes.Some? {
      attributes := ConvertLocalAttributes(c.attributes.value);
    }
    if c.slotUsage.Some? {
      attributes := ApplySlotUsage(attributes, c.slotUsage.value);
    }
    o := ObjectData(c.isA.UnwrapOr(""), attributes, c.description.UnwrapOr(""), c.classUri, [], None, None);
  }

  // ---------------------------------------------------------------------
  // Enumerations
  // ---------------------------------------------------------------------

  /** The permissible values as `(key, meaning or "")` entries. */
  function EnumEntries(values: IndexMaps.IndexMap<PermissibleValue>): (r: seq<Option<(string, string)>>)
    ensures |r| == |values|
    ensures forall i :: 0 <= i < |values| ==> r[i] == Some((values[i].0, values[i].1.meaning.UnwrapOr("")))
  {
    seq(|values|, i requires 0 <= i < |values| => Some((values[i].0, values[i].1.meaning.UnwrapOr(""))))
  }

  /** `From<EnumDefinition> for Enumeration`: the entries are collected
   *  into a `BTreeMap`, so they end up in key order. */
  function EnumFromDefinition(def: EnumDefinition): (r: EnumData)
    ensures r.name == "" && r.docstring == def.description.UnwrapOr("") && r.position.None?
    ensures OrderedMaps.Valid(r.mappings)
  {
    OrderedMaps.InsertAllValid([], EnumEntries(def.permissibleValues));
    EnumData("", OrderedMaps.InsertAll([], EnumEntries(def.permissibleValues)), def.description.UnwrapOr(""), None)
  }

  /** With distinct keys the last entry of a key is its only entry. */
  lemma {:induction false} EntriesLastValue(values: IndexMaps.IndexMap<PermissibleValue>, k: string)
    requires IndexMaps.Valid(values)
    ensures OrderedMaps.LastValue(EnumEntries(values), k)
      == if IndexMaps.Get(values, k).Some? then Some(IndexMaps.Get(values, k).value.meaning.UnwrapOr("")) else None
  {
    if values != [] {
      var es := EnumEntries(values);
      assert es[1..] == EnumEntries(values[1..]);
      assert IndexMaps.Keys(values) == [values[0].0] + IndexMaps.Keys(values[1..]);
      EntriesLastValue(values[1..], k);
    }
  }

  /** Every key maps to its meaning, or to "" when it has none, and no other
   *  key is present. */
  lemma EnumFromDefinitionGet(def: EnumDefinition, k: string)
    requires IndexMaps.Valid(def.permissibleValues)
    ensures var v := IndexMaps.Get(def.permissibleValues, k);
      OrderedMaps.Get(EnumFromDefinition(def).mappings, k)
        == if v.Some? then Some(v.value.meaning.UnwrapOr("")) else None
  {
    OrderedMaps.InsertAllGet([], EnumEntries(def.permissibleValues), k);
    EntriesLastValue(def.permissibleValues, k);
  }

  /** `EnumFromDefinition` with the enumeration named by its key. */
  function NamedEnum(name: string, def: EnumDefinition): (r: EnumData)
  {
    EnumFromDefinition(def).(name := name)
  }

  // ---------------------------------------------------------------------
  // The schema
  // ---------------------------------------------------------------------

  /** The global slots a class lists, in its order, skipping names with no
   *  global definition. */
  function GlobalSlots(slots: IndexMaps.IndexMap<AttributeDefinition>, names: seq<string>): seq<AttributeData>
  {
    if names == [] then []
    else
      var last := names[|names| - 1];
      var def := IndexMaps.Get(slots, last);
      GlobalSlots(slots, names[..|names| - 1]) + (if def.Some? then [NamedAttribute(last, def.value)] else [])
  }

  /** The listed names that have a global definition, in order, each
   *  converted from that definition. */
  lemma {:induction false} GlobalSlotsContents(slots: IndexMaps.IndexMap<AttributeDefinition>, names: seq<string>)
    ensures Names(GlobalSlots(slots, names)) == Filter(n => n in IndexMaps.Keys(slots), names)
    ensures forall a :: a in GlobalSlots(slots, names) ==>
      a.name in IndexMaps.Keys(slots) && a == NamedAttribute(a.name, IndexMaps.Get(slots, a.name).value)
  {
    if names != [] {
      var init := names[..|names| - 1];
      var last := names[|names| - 1];
      GlobalSlotsContents(slots, init);
      FilterSnoc(n => n in IndexMaps.Keys(slots), init, last);
      assert names == init + [last];
      var extra := if IndexMaps.Get(slots, last).Some? then [NamedAttribute(last, IndexMaps.Get(slots, last).value)] else [];
      assert Names(GlobalSlots(slots, init) + extra) == Names(GlobalSlots(slots, init)) + Names(extra);
    }
  }

  /** One class: converted, named by its key, and given its global slots
   *  after its local attributes. */
  function ObjectOf(slots: IndexMaps.IndexMap<AttributeDefinition>, name: string, c: ClassDefinition): ObjectData
  {
    var o := ClassObject(c);
    o.(name := name, attributes := o.attributes + GlobalSlots(slots, c.slots))
  }

  function ObjectsOf(slots: IndexMaps.IndexMap<AttributeDefinition>, classes: IndexMaps.IndexMap<ClassDefinition>): (r: seq<ObjectData>)
    ensures |r| == |classes|
    ensures forall i :: 0 <= i < |classes| ==> r[i] == ObjectOf(slots, classes[i].0, classes[i].1)
  {
    if classes == [] then []
    else
      var last := classes[|classes| - 1];
      ObjectsOf(slots, classes[..|classes| - 1]) + [ObjectOf(slots, last.0, last.1)]
  }

  function EnumsOf(enums: IndexMaps.IndexMap<EnumDefinition>): (r: seq<EnumData>)
    ensures |r| == |enums|
    ensures forall i :: 0 <= i < |enums| ==> r[i] == NamedEnum(enums[i].0, enums[i].1)
  {
    seq(|enums|, i requires 0 <= i < |enums| => NamedEnum(enums[i].0, enums[i].1))
  }

  /** The front matter: prefix = the schema id, the prefixes copied, every
   *  other key at its default. */
  function ImportConfig(l: LinkML): FrontMatter
  {
    DefaultFrontMatter().(prefix := l.id, prefixes := Some(l.prefixes))
  }

  /** `From<LinkML> for DataModel`. */
  function LinkmlModel(l: LinkML): Model
  {
    Model(Some(l.name), ObjectsOf(l.slots, l.classes), EnumsOf(l.enums), Some(ImportConfig(l)))
  }

  /** One object per class, named by its map key (not by `is_a`), holding
   *  the class's own attributes followed by the known global slots it
   *  lists; one enumeration per enum, named by its key; the configuration
   *  takes the id as prefix and copies the prefixes. */
  lemma LinkmlModelContents(l: LinkML)
    ensures var m := LinkmlModel(l);
      && m.name == Some(l.name)
      && m.config.Some? && m.config.value.prefix == l.id && m.config.value.prefixes == Some(l.prefixes)
      && m.config.value.repo == DefaultRepo && m.config.value.id.None?
      && ObjectNames(m.objects) == IndexMaps.Keys(l.classes)
      && (forall i :: 0 <= i < |l.classes| ==>
            m.objects[i].attributes == ClassObject(l.classes[i].1).attributes + GlobalSlots(l.slots, l.classes[i].1.slots))
      && EnumNames(m.enums) == IndexMaps.Keys(l.enums)
  {
  }

  /** The slot loop of one class. */
  method AppendGlobalSlots(slots: IndexMaps.IndexMap<AttributeDefinition>, names: seq<string>, attrs: seq<AttributeData>)
    returns (r: seq<AttributeData>)
    ensures r == attrs + GlobalSlots(slots, names)
  {
    r := attrs;
    for i := 0 to |names|
      invariant r == attrs + GlobalSlots(slots, names[..i])
    {
      assert names[..i + 1][..i] == names[..i];
      var def := IndexMaps.Get(slots, names[i]);
      if def.Some? {
        r := r + [NamedAttribute(names[i], def.value)];
      }
    }
    assert names[..|names|] == names;
  }

  /** The class loop of `From<LinkML> for DataModel`. */
  method ConvertClasses(slots: IndexMaps.IndexMap<AttributeDefinition>, classes: IndexMaps.IndexMap<ClassDefinition>)
    returns (objects: seq<ObjectData>)
    ensures objects == ObjectsOf(slots, classes)
  {
    objects := [];
    for i := 0 to |classes|
      invariant objects == ObjectsOf(slots, classes[..i])
    {
      assert classes[..i + 1][..i] == classes[..i];
      var (name, c) := classes[i];
      var obj := ClassToObject(c);
      obj := obj.(name := name);
      var attrs := AppendGlobalSlots(slots, c.slots, obj.attributes);
      obj := obj.(attributes := attrs);
      objects := objects + [obj];
    }
    assert classes[..|classes|] == classes;
  }

  /** `From<LinkML> for DataModel`. */
  method ModelFromLinkml(l: LinkML) returns (m: Model)
    ensures m == LinkmlModel(l)
  {
    var config := ImportConfig(l);
    var objects := ConvertClasses(l.slots, l.classes);
    var enums := EnumsOf(l.enums);
    m := Model(Some(l.name), objects, enums, Some(config));
  }
}
