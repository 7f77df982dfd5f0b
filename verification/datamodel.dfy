/** `DataModel`: the objects and enumerations of one or more markdown
 *  documents, merged and sorted in place. */
module DataModels {
  import opened Wrappers
  import opened Objects
  import opened Models

  /** No object name and no enumeration name of `other` occurs in `self`.
   *  Names are compared with `self` only, not within `other`. */
  predicate NoCollision(self: Model, other: Model)
  {
    (forall i :: 0 <= i < |other.objects| ==> other.objects[i].name !in ObjectNames(self.objects))
    && (forall i :: 0 <= i < |other.enums| ==> other.enums[i].name !in EnumNames(self.enums))
  }

  const MergePanic: string := "Merge is not valid"

  /** `DataModel::merge` on values: other's objects and enums follow self's,
   *  or a panic on any collision. */
  function MergeSpec(self: Model, other: Model): (r: Result<Model>)
    ensures r.Err? <==> !NoCollision(self, other)
    ensures r.Err? ==> IsPanic(r) && r.error == MergePanic
    ensures r.Ok? ==> r.value.objects == self.objects + other.objects
    ensures r.Ok? ==> r.value.enums == self.enums + other.enums
    ensures r.Ok? ==> r.value.name == self.name && r.value.config == self.config
  {
    if NoCollision(self, other) then
      Ok(self.(objects := self.objects + other.objects, enums := self.enums + other.enums))
    else Panic(MergePanic)
  }

  /** Two objects of the same name inside `other` do not stop the merge. */
  lemma MergeKeepsInnerDuplicates(self: Model, o: ObjectData)
    requires o.name !in ObjectNames(self.objects)
    ensures var r := MergeSpec(self, Model(None, [o, o], [], None));
      r.Ok? && |r.value.objects| == |self.objects| + 2
      && r.value.objects[|self.objects|].name == r.value.objects[|self.objects| + 1].name
  {
  }

  /** Merging a model without objects or enumerations changes nothing. */
  lemma MergeEmpty(self: Model, name: Option<string>, config: Option<FrontMatter>)
    ensures MergeSpec(self, Model(name, [], [], config)) == Ok(self)
  {
    assert self.objects + [] == self.objects && self.enums + [] == self.enums;
  }

  /** Folding merges is associative: `(a + b) + c` and `a + (b + c)` both
   *  succeed or both panic, and agree on objects and enums. */
  lemma {:induction false} MergeAssociative(a: Model, b: Model, c: Model)
    ensures var ab := MergeSpec(a, b);
      var bc := MergeSpec(b, c);
      (ab.Ok? && MergeSpec(ab.value, c).Ok?) <==> (bc.Ok? && MergeSpec(a, bc.value).Ok?)
    ensures var ab := MergeSpec(a, b);
      var bc := MergeSpec(b, c);
      ab.Ok? && MergeSpec(ab.value, c).Ok? ==>
        MergeSpec(ab.value, c).value.objects == MergeSpec(a, bc.value).value.objects
        && MergeSpec(ab.value, c).value.enums == MergeSpec(a, bc.value).value.enums
  {
    var ab := MergeSpec(a, b);
    var bc := MergeSpec(b, c);
    if ab.Ok? && MergeSpec(ab.value, c).Ok? {
      assert ObjectNames(ab.value.objects) == ObjectNames(a.objects) + ObjectNames(b.objects);
      assert EnumNames(ab.value.enums) == EnumNames(a.enums) + EnumNames(b.enums);
      assert NoCollision(b, c);
      assert NoCollision(a, bc.value) by {
        forall i | 0 <= i < |bc.value.objects| ensures bc.value.objects[i].name !in ObjectNames(a.objects) {
          if i >= |b.objects| {
            assert bc.value.objects[i] == c.objects[i - |b.objects|];
          }
        }
        forall i | 0 <= i < |bc.value.enums| ensures bc.value.enums[i].name !in EnumNames(a.enums) {
          if i >= |b.enums| {
            assert bc.value.enums[i] == c.enums[i - |b.enums|];
          }
        }
      }
      assert (a.objects + b.objects) + c.objects == a.objects + (b.objects + c.objects);
      assert (a.enums + b.enums) + c.enums == a.enums + (b.enums + c.enums);
    }
    if bc.Ok? && MergeSpec(a, bc.value).Ok? {
      assert NoCollision(a, b) by {
        forall i | 0 <= i < |b.objects| ensures b.objects[i].name !in ObjectNames(a.objects) {
          assert bc.value.objects[i] == b.objects[i];
        }
        forall i | 0 <= i < |b.enums| ensures b.enums[i].name !in EnumNames(a.enums) {
          assert bc.value.enums[i] == b.enums[i];
        }
      }
      assert ObjectNames(ab.value.objects) == ObjectNames(a.objects) + ObjectNames(b.objects);
      assert EnumNames(ab.value.enums) == EnumNames(a.enums) + EnumNames(b.enums);
      assert NoCollision(ab.value, c) by {
        forall i | 0 <= i < |c.objects| ensures c.objects[i].name !in ObjectNames(ab.value.objects) {
          assert bc.value.objects[|b.objects| + i] == c.objects[i];
        }
        forall i | 0 <= i < |c.enums| ensures c.enums[i].name !in EnumNames(ab.value.enums) {
          assert bc.value.enums[|b.enums| + i] == c.enums[i];
        }
      }
    }
  }

  /** Every object with its attributes put required-first. */
  function SortAll(objects: seq<ObjectData>): (r: seq<ObjectData>)
    ensures |r| == |objects|
    ensures forall i :: 0 <= i < |objects| ==> r[i] == objects[i].(attributes := RequiredFirst(objects[i].attributes))
  {
    seq(|objects|, i requires 0 <= i < |objects| => objects[i].(attributes := RequiredFirst(objects[i].attributes)))
  }

  /** Sorting keeps object names and hashes, and a second sort changes
   *  nothing. */
  lemma SortAllKeeps(objects: seq<ObjectData>)
    ensures ObjectNames(SortAll(objects)) == ObjectNames(objects)
    ensures forall i :: 0 <= i < |objects| ==> SameHash(objects[i], SortAll(objects)[i])
    ensures SortAll(SortAll(objects)) == SortAll(objects)
  {
    forall i | 0 <= i < |objects| ensures SameHash(objects[i], SortAll(objects)[i]) {
      SortKeepsHash(objects[i]);
    }
    forall i | 0 <= i < |objects| ensures SortAll(SortAll(objects))[i] == SortAll(objects)[i] {
      RequiredFirstStable(objects[i].attributes);
    }
  }

  const NoObjectsPanic: string := "No objects found in the markdown file"

  /** The checks `DataModel::json_schema` makes before rendering: the name of
   *  the object to render, or a panic. */
  function JsonSchemaRoot(m: Model, objName: Option<string>): (r: Result<string>)
    ensures m.objects == [] ==> r == Panic(NoObjectsPanic)
    ensures m.objects != [] && objName.None? ==> r == Ok(m.objects[0].name)
    ensures m.objects != [] && objName.Some? ==>
      (r.Ok? <==> objName.value in ObjectNames(m.objects))
      && (r.Ok? ==> r.value == objName.value)
      && (r.Err? ==> IsPanic(r) && r.error == "Object '" + objName.value + "' not found in the markdown file")
  {
    if m.objects == [] then Panic(NoObjectsPanic)
    else match objName
      case Some(name) =>
        if name !in ObjectNames(m.objects) then
          Panic("Object '" + name + "' not found in the markdown file")
        else Ok(name)
      case None => Ok(m.objects[0].name)
  }

  /** The check `DataModel::sdrdm_schema` makes before serialising the
   *  model: a model without objects panics, any other is serialised as it is. */
  function SdrdmSchemaOf(m: Model): (r: Result<Model>)
    ensures r.Err? <==> m.objects == []
    ensures r.Err? ==> r == Panic(NoObjectsPanic)
    ensures r.Ok? ==> r.value == m
  {
    if m.objects == [] then Panic(NoObjectsPanic) else Ok(m)
  }

  /** `DataModel` with its lists updated in place. */
  class DataModel {
    var name: Option<string>
    var objects: seq<ObjectData>
    var enums: seq<EnumData>
    var config: Option<FrontMatter>

    function Data(): Model
      reads this
    {
      Model(name, objects, enums, config)
    }

    /** `DataModel::new`. */
    constructor (name: Option<string>, config: Option<FrontMatter>)
      ensures Data() == Model(name, [], [], config)
    {
      this.name := name;
      this.objects := [];
      this.enums := [];
      this.config := config;
    }

    /** `DataModel::merge`: every name of `other` is checked against `self`
     *  before anything is appended; on a collision the model panics and
     *  is left as it was. */
    method Merge(other: Model) returns (r: Result<()>)
      modifies this
      ensures r.Ok? <==> MergeSpec(old(Data()), other).Ok?
      ensures r.Ok? ==> Data() == MergeSpec(old(Data()), other).value
      ensures r.Err? ==> r == Panic(MergePanic) && Data() == old(Data())
    {
      var valid := true;
      for i := 0 to |other.objects|
        invariant valid <==> forall k :: 0 <= k < i ==> other.objects[k].name !in ObjectNames(objects)
      {
        if other.objects[i].name in ObjectNames(objects) {
          valid := false;
        }
      }
      for i := 0 to |other.enums|
        invariant valid <==>
          (forall k :: 0 <= k < |other.objects| ==> other.objects[k].name !in ObjectNames(objects))
          && (forall k :: 0 <= k < i ==> other.enums[k].name !in EnumNames(enums))
      {
        if other.enums[i].name in EnumNames(enums) {
          valid := false;
        }
      }
      if !valid {
        return Panic(MergePanic);
      }
      objects := objects + other.objects;
      enums := enums + other.enums;
      return Ok(());
    }

    /** `DataModel::sort_attrs`: `sort_attrs_by_required` on every object. */
    method SortAttrs()
      modifies this
      ensures Data() == old(Data()).(objects := SortAll(old(objects)))
    {
      for i := 0 to |objects|
        invariant |objects| == |old(objects)|
        invariant forall k :: 0 <= k < i ==> objects[k] == SortAll(old(objects))[k]
        invariant forall k :: i <= k < |objects| ==> objects[k] == old(objects)[k]
        invariant name == old(name) && enums == old(enums) && config == old(config)
      {
        var sorted := PartitionByRequired(objects[i].attributes);
        objects := objects[i := objects[i].(attributes := sorted)];
      }
    }

    /** The check `DataModel::sdrdm_schema` makes before serialising the
     *  model: a model without objects panics. */
    function SdrdmSchema(): (r: Result<Model>)
      reads this
    {
      SdrdmSchemaOf(Data())
    }
  }
}
