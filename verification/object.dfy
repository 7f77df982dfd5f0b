/** Objects (records with ordered attributes) and enumerations. */
module Objects {
  import opened Wrappers
  import Text
  import StringOrder
  import OrderedMaps
  import Positions
  import opened Attributes

  // ---------------------------------------------------------------------
  // PascalCase, the `Case::Pascal` conversion of object names
  // ---------------------------------------------------------------------

  predicate IsSeparator(c: char) { c == '_' || c == '-' || c == ' ' }

  /** A word starts at `i` after a separator, at a lower-to-upper change, at a
   *  digit-to-letter change, or at the last capital of an acronym followed
   *  by a lower-case letter. */
  predicate WordStart(s: string, i: nat)
    requires i < |s|
  {
    i == 0 || IsSeparator(s[i - 1])
    || (Text.IsAsciiLower(s[i - 1]) && Text.IsAsciiUpper(s[i]))
    || (Text.IsDigit(s[i - 1]) && Text.IsAlphabetic(s[i]))
    || (Text.IsAsciiUpper(s[i - 1]) && Text.IsAsciiUpper(s[i]) && i + 1 < |s| && Text.IsAsciiLower(s[i + 1]))
  }

  /** Separators dropped, the first letter of each word upper-cased and every
   *  other letter lower-cased. */
  function PascalFrom(s: string, i: nat): (r: string)
    requires i <= |s|
    ensures forall k :: 0 <= k < |r| ==> !IsSeparator(r[k])
    ensures |r| <= |s| - i
    decreases |s| - i
  {
    if i == |s| then []
    else if IsSeparator(s[i]) then PascalFrom(s, i + 1)
    else
      var c := if WordStart(s, i) then Text.ToUpperChar(s[i]) else Text.ToLowerChar(s[i]);
      [c] + PascalFrom(s, i + 1)
  }

  function Pascal(s: string): (r: string)
    ensures forall k :: 0 <= k < |r| ==> !IsSeparator(r[k])
  {
    PascalFrom(s, 0)
  }

  /** A name without separators keeps its length; its first letter becomes a
   *  capital. */
  lemma {:induction false} PascalKeepsLetters(s: string, i: nat)
    requires i <= |s|
    requires forall k :: i <= k < |s| ==> !IsSeparator(s[k])
    ensures |PascalFrom(s, i)| == |s| - i
    ensures i < |s| && Text.IsAsciiLower(s[i]) && WordStart(s, i) ==> Text.IsAsciiUpper(PascalFrom(s, i)[0])
    decreases |s| - i
  {
    if i < |s| {
      PascalKeepsLetters(s, i + 1);
    }
  }

  // ---------------------------------------------------------------------
  // Values
  // ---------------------------------------------------------------------

  /** An object as it is stored inside a data model. */
  datatype ObjectData = ObjectData(
    name: string,
    attributes: seq<AttributeData>,
    docstring: string,
    term: Option<string>,
    mixins: seq<string>,
    position: Option<Positions.Position>,
    parent: Option<string>)

  /** An enumeration: a `BTreeMap` from keys to values. */
  datatype EnumData = EnumData(
    name: string,
    mappings: OrderedMaps.OrderedMap<string>,
    docstring: string,
    position: Option<Positions.Position>)

  /** The name `Object::new` stores: spaces become '_', then PascalCase. */
  function ObjectName(name: string): (r: string)
    ensures ' ' !in r && '_' !in r
  {
    var r := Pascal(Text.Replace(name, ' ', "_"));
    assert forall k :: 0 <= k < |r| ==> r[k] != ' ' && r[k] != '_';
    r
  }

  /** `Object::new`. */
  function NewObject(name: string, term: Option<string>): (r: ObjectData)
    ensures r.name == ObjectName(name) && r.term == term
    ensures r.attributes == [] && r.docstring == "" && r.mixins == []
    ensures r.position.None? && r.parent.None?
  {
    ObjectData(ObjectName(name), [], "", term, [], None, None)
  }

  /** `Object::has_attributes`. */
  predicate HasAttributes(o: ObjectData)
  {
    o.attributes != []
  }

  /** `Object::get_last_attribute`. */
  function LastAttribute(o: ObjectData): (r: Option<AttributeData>)
    ensures r.None? <==> o.attributes == []
    ensures r.Some? ==> r.value == o.attributes[|o.attributes| - 1]
  {
    if o.attributes == [] then None else Some(o.attributes[|o.attributes| - 1])
  }

  /** `Object::has_any_terms`. */
  function HasAnyTerms(o: ObjectData): (b: bool)
    ensures b <==> exists i :: 0 <= i < |o.attributes| && o.attributes[i].term.Some?
  {
    AnyTerm(o.attributes)
  }

  function AnyTerm(attrs: seq<AttributeData>): (b: bool)
    ensures b <==> exists i :: 0 <= i < |attrs| && attrs[i].term.Some?
  {
    if attrs == [] then false
    else
      assert forall i :: 0 < i < |attrs| ==> attrs[i] == attrs[1..][i - 1];
      attrs[0].term.Some? || AnyTerm(attrs[1..])
  }

  /** `Enumeration::has_values`. */
  predicate HasValues(e: EnumData)
  {
    e.mappings != []
  }

  // ---------------------------------------------------------------------
  // Required-first partition
  // ---------------------------------------------------------------------

  /** The attributes `sort_attrs_by_required` moves to the front. */
  predicate IsTop(a: AttributeData)
  {
    a.required && a.defaultValue.None? && !a.isArray
  }

  /** The attributes satisfying `IsTop(a) == top`, in their original order. */
  function Group(attrs: seq<AttributeData>, top: bool): (r: seq<AttributeData>)
    ensures forall k :: 0 <= k < |r| ==> IsTop(r[k]) == top
    ensures |r| <= |attrs|
  {
    if attrs == [] then []
    else
      var last := attrs[|attrs| - 1];
      Group(attrs[..|attrs| - 1], top) + (if IsTop(last) == top then [last] else [])
  }

  /** The stable partition: the top group, then all others. */
  function RequiredFirst(attrs: seq<AttributeData>): seq<AttributeData>
  {
    Group(attrs, true) + Group(attrs, false)
  }

  lemma {:induction false} GroupsPermutation(attrs: seq<AttributeData>)
    ensures multiset(Group(attrs, true)) + multiset(Group(attrs, false)) == multiset(attrs)
  {
    if attrs != [] {
      var init := attrs[..|attrs| - 1];
      GroupsPermutation(init);
      assert attrs == init + [attrs[|attrs| - 1]];
    }
  }

  /** The result is a permutation of the input. */
  lemma RequiredFirstPermutation(attrs: seq<AttributeData>)
    ensures multiset(RequiredFirst(attrs)) == multiset(attrs)
  {
    GroupsPermutation(attrs);
  }

  /** No attribute of the top group comes after one of the bottom group. */
  lemma RequiredFirstPartitioned(attrs: seq<AttributeData>)
    ensures var r := RequiredFirst(attrs);
      forall i, j :: 0 <= i < j < |r| && IsTop(r[j]) ==> IsTop(r[i])
  {
    var r := RequiredFirst(attrs);
    var t := Group(attrs, true);
    assert forall k :: 0 <= k < |t| ==> r[k] == t[k];
    assert forall k :: |t| <= k < |r| ==> r[k] == Group(attrs, false)[k - |t|];
  }

  lemma {:induction false} GroupOfGroup(attrs: seq<AttributeData>, top: bool, other: bool)
    ensures Group(Group(attrs, top), top) == Group(attrs, top)
    ensures Group(Group(attrs, top), !top) == []
  {
    if attrs != [] {
      var init := attrs[..|attrs| - 1];
      var last := attrs[|attrs| - 1];
      GroupOfGroup(init, top, other);
      var g := Group(attrs, top);
      if IsTop(last) == top {
        assert g[..|g| - 1] == Group(init, top);
      } else {
        assert g == Group(init, top);
      }
    }
  }

  lemma {:induction false} GroupAppend(a: seq<AttributeData>, b: seq<AttributeData>, top: bool)
    ensures Group(a + b, top) == Group(a, top) + Group(b, top)
    decreases |b|
  {
    if b != [] {
      var init := b[..|b| - 1];
      GroupAppend(a, init, top);
      assert (a + b)[..|a + b| - 1] == a + init;
    } else {
      assert a + b == a;
    }
  }

  /** Each group keeps its original order, and sorting twice changes nothing. */
  lemma RequiredFirstStable(attrs: seq<AttributeData>)
    ensures Group(RequiredFirst(attrs), true) == Group(attrs, true)
    ensures Group(RequiredFirst(attrs), false) == Group(attrs, false)
    ensures RequiredFirst(RequiredFirst(attrs)) == RequiredFirst(attrs)
  {
    var t := Group(attrs, true);
    var b := Group(attrs, false);
    GroupAppend(t, b, true);
    GroupAppend(t, b, false);
    GroupOfGroup(attrs, true, false);
    GroupOfGroup(attrs, false, true);
  }

  /** The loop of `sort_attrs_by_required`: two accumulators, then the top
   *  group followed by the bottom group. */
  method PartitionByRequired(attrs: seq<AttributeData>) returns (r: seq<AttributeData>)
    ensures r == RequiredFirst(attrs)
  {
    var top: seq<AttributeData> := [];
    var bottom: seq<AttributeData> := [];
    for i := 0 to |attrs|
      invariant top == Group(attrs[..i], true)
      invariant bottom == Group(attrs[..i], false)
    {
      assert attrs[..i + 1][..i] == attrs[..i];
      if IsTop(attrs[i]) {
        top := top + [attrs[i]];
      } else {
        bottom := bottom + [attrs[i]];
      }
    }
    assert attrs[..|attrs|] == attrs;
    r := top + bottom;
  }

  // ---------------------------------------------------------------------
  // Identity
  // ---------------------------------------------------------------------

  function Names(attrs: seq<AttributeData>): (r: seq<string>)
    ensures |r| == |attrs| && forall i :: 0 <= i < |attrs| ==> r[i] == attrs[i].name
  {
    seq(|attrs|, i requires 0 <= i < |attrs| => attrs[i].name)
  }

  /** What `impl Hash for Object` feeds the hasher: the sorted attribute names. */
  function ObjectHash(o: ObjectData): seq<string>
  {
    StringOrder.Sort(Names(o.attributes))
  }

  /** `Object::same_hash`. */
  predicate SameHash(a: ObjectData, b: ObjectData)
  {
    ObjectHash(a) == ObjectHash(b)
  }

  /** Two objects hash alike exactly when they have the same attribute names,
   *  repeats counted, in whatever order. */
  lemma SameHashIff(a: ObjectData, b: ObjectData)
    ensures SameHash(a, b) <==> multiset(Names(a.attributes)) == multiset(Names(b.attributes))
  {
    StringOrder.SortEqualIff(Names(a.attributes), Names(b.attributes));
  }

  lemma NamesAppend(a: seq<AttributeData>, b: seq<AttributeData>)
    ensures Names(a + b) == Names(a) + Names(b)
  {
  }

  /** The names of a non-empty list: those of all but the last, then the last one's. */
  lemma NamesInit(attrs: seq<AttributeData>)
    requires attrs != []
    ensures Names(attrs) == Names(attrs[..|attrs| - 1]) + [attrs[|attrs| - 1].name]
  {
    var init := attrs[..|attrs| - 1];
    var r := Names(init) + [attrs[|attrs| - 1].name];
    forall i | 0 <= i < |attrs| ensures Names(attrs)[i] == r[i] {
      if i < |init| {
        assert init[i] == attrs[i];
      }
    }
  }

  lemma NamesSnoc(a: seq<AttributeData>, x: AttributeData)
    ensures multiset(Names(a + [x])) == multiset(Names(a)) + multiset{x.name}
  {
    assert Names(a + [x]) == Names(a) + [x.name];
  }

  lemma {:induction false} NamesOfGroups(attrs: seq<AttributeData>)
    ensures multiset(Names(Group(attrs, true))) + multiset(Names(Group(attrs, false))) == multiset(Names(attrs))
  {
    if attrs != [] {
      var init := attrs[..|attrs| - 1];
      var last := attrs[|attrs| - 1];
      NamesOfGroups(init);
      assert attrs == init + [last];
      NamesSnoc(init, last);
      var t := Group(init, true);
      var f := Group(init, false);
      if IsTop(last) {
        assert Group(attrs, true) == t + [last];
        assert Group(attrs, false) == f + [] == f;
        NamesSnoc(t, last);
      } else {
        assert Group(attrs, true) == t + [] == t;
        assert Group(attrs, false) == f + [last];
        NamesSnoc(f, last);
      }
    }
  }

  /** Reordering attributes by `sort_attrs_by_required` keeps the hash. */
  lemma SortKeepsHash(o: ObjectData)
    ensures SameHash(o, o.(attributes := RequiredFirst(o.attributes)))
  {
    NamesOfGroups(o.attributes);
    assert Names(RequiredFirst(o.attributes)) == Names(Group(o.attributes, true)) + Names(Group(o.attributes, false));
    SameHashIff(o, o.(attributes := RequiredFirst(o.attributes)));
  }

  /** What `impl Hash for Enumeration` feeds the hasher: the sorted keys. */
  function EnumHash(e: EnumData): seq<string>
  {
    StringOrder.Sort(OrderedMaps.Keys(e.mappings))
  }

  predicate EnumSameHash(a: EnumData, b: EnumData)
  {
    EnumHash(a) == EnumHash(b)
  }

  /** Two enumerations hash alike exactly when they have the same keys; the
   *  values play no part. */
  lemma EnumSameHashIff(a: EnumData, b: EnumData)
    requires OrderedMaps.Valid(a.mappings) && OrderedMaps.Valid(b.mappings)
    ensures EnumSameHash(a, b) <==> forall k :: k in OrderedMaps.Keys(a.mappings) <==> k in OrderedMaps.Keys(b.mappings)
  {
    var ka := OrderedMaps.Keys(a.mappings);
    var kb := OrderedMaps.Keys(b.mappings);
    StringOrder.SortEqualIff(ka, kb);
    if forall k :: k in ka <==> k in kb {
      OrderedMaps.KeysDetermined(a.mappings, b.mappings);
    }
    if EnumSameHash(a, b) {
      forall k ensures k in ka <==> k in kb {
        assert k in ka <==> k in multiset(ka);
        assert k in kb <==> k in multiset(kb);
      }
    }
  }

  // ---------------------------------------------------------------------
  // The mutable object and enumeration
  // ---------------------------------------------------------------------

  /** `Object`, updated in place by its setters. */
  class Object {
    var name: string
    var attributes: seq<AttributeData>
    var docstring: string
    var term: Option<string>
    var mixins: seq<string>
    var position: Option<Positions.Position>
    var parent: Option<string>

    function Data(): ObjectData
      reads this
    {
      ObjectData(name, attributes, docstring, term, mixins, position, parent)
    }

    /** `Object::new`. */
    constructor (name: string, term: Option<string>)
      ensures Data() == NewObject(name, term)
    {
      this.name := ObjectName(name);
      this.attributes := [];
      this.docstring := "";
      this.term := term;
      this.mixins := [];
      this.position := None;
      this.parent := None;
    }

    /** `Object::add_attribute`: appended at the end. */
    method AddAttribute(attribute: AttributeData)
      modifies this
      ensures Data() == old(Data()).(attributes := old(attributes) + [attribute])
    {
      attributes := attributes + [attribute];
    }

    /** `Object::create_new_attribute`. */
    method CreateNewAttribute(name: string, required: bool)
      modifies this
      ensures Data() == old(Data()).(attributes := old(attributes) + [NewAttribute(name, required)])
    {
      var a := new Attribute(name, required);
      AddAttribute(a.Data());
    }

    /** `Object::set_docstring`. */
    method SetDocstring(docstring: string)
      modifies this
      ensures Data() == old(Data()).(docstring := docstring)
    {
      this.docstring := docstring;
    }

    /** `Object::set_position`. */
    method SetPosition(position: Positions.Position)
      modifies this
      ensures Data() == old(Data()).(position := Some(position))
    {
      this.position := Some(position);
    }

    /** `Object::set_name`: stored as given, without PascalCase. */
    method SetName(name: string)
      modifies this
      ensures Data() == old(Data()).(name := name)
    {
      this.name := name;
    }

    /** `Object::sort_attrs_by_required`. */
    method SortAttrsByRequired()
      modifies this
      ensures Data() == old(Data()).(attributes := RequiredFirst(old(attributes)))
    {
      attributes := PartitionByRequired(attributes);
    }
  }

  /** `Enumeration`, updated in place by its setter. */
  class Enumeration {
    var name: string
    var mappings: OrderedMaps.OrderedMap<string>
    var docstring: string
    var position: Option<Positions.Position>

    function Data(): EnumData
      reads this
    {
      EnumData(name, mappings, docstring, position)
    }

    constructor (name: string)
      ensures Data() == EnumData(name, [], "", None)
    {
      this.name := name;
      this.mappings := [];
      this.docstring := "";
      this.position := None;
    }

    /** `Enumeration::set_position`. */
    method SetPosition(position: Positions.Position)
      modifies this
      ensures Data() == old(Data()).(position := Some(position))
    {
      this.position := Some(position);
    }
  }
}
