/** The split of attribute dtypes into primitive types and references, and
 *  the JSON type each primitive maps to. */
module Primitives {
  import opened Wrappers
  import Models
  import opened Seqs

  /** `PrimitiveTypes`: the primitive names and the JSON mapping table. */
  datatype PrimitiveTypes = PrimitiveTypes(types: seq<string>, jsonMappings: map<string, string>)

  const PrimitiveNames: seq<string> :=
    ["string", "float", "integer", "boolean", "bool", "null", "number", "date", "identifier"]

  const JsonMappings: map<string, string> := map[
    "string" := "string", "float" := "number", "integer" := "integer",
    "boolean" := "boolean", "bool" := "boolean", "null" := "null",
    "date" := "string", "number" := "number", "identifier" := "string",
    "bytes" := "string"]

  /** `PrimitiveTypes::new`. */
  function NewPrimitiveTypes(): (p: PrimitiveTypes)
    ensures p.types == PrimitiveNames && p.jsonMappings == JsonMappings
  {
    PrimitiveTypes(PrimitiveNames, JsonMappings)
  }

  /** `PrimitiveTypes::is_primitive`. */
  predicate IsPrimitive(p: PrimitiveTypes, dtype: string)
  {
    dtype in p.types
  }

  /** The dtypes whose primitiveness is `primitive`, in order, repeats kept. */
  function Keep(p: PrimitiveTypes, dtypes: seq<string>, primitive: bool): (r: seq<string>)
    ensures forall k :: 0 <= k < |r| ==> IsPrimitive(p, r[k]) == primitive
    ensures |r| <= |dtypes|
  {
    if dtypes == [] then []
    else
      var init := dtypes[..|dtypes| - 1];
      var last := dtypes[|dtypes| - 1];
      Keep(p, init, primitive) + (if IsPrimitive(p, last) == primitive then [last] else [])
  }

  /** `filter_primitive`. */
  method FilterPrimitive(p: PrimitiveTypes, dtypes: seq<string>) returns (r: seq<string>)
    ensures r == Keep(p, dtypes, true)
  {
    r := [];
    for i := 0 to |dtypes|
      invariant r == Keep(p, dtypes[..i], true)
    {
      assert dtypes[..i + 1][..i] == dtypes[..i];
      if IsPrimitive(p, dtypes[i]) {
        r := r + [dtypes[i]];
      }
    }
    assert dtypes[..|dtypes|] == dtypes;
  }

  /** `filter_non_primitives`. */
  method FilterNonPrimitives(p: PrimitiveTypes, dtypes: seq<string>) returns (r: seq<string>)
    ensures r == Keep(p, dtypes, false)
  {
    r := [];
    for i := 0 to |dtypes|
      invariant r == Keep(p, dtypes[..i], false)
    {
      assert dtypes[..i + 1][..i] == dtypes[..i];
      if !IsPrimitive(p, dtypes[i]) {
        r := r + [dtypes[i]];
      }
    }
    assert dtypes[..|dtypes|] == dtypes;
  }

  /** The two filters partition the input: every dtype lands in exactly one,
   *  repeats counted. */
  lemma {:induction false} FiltersPartition(p: PrimitiveTypes, dtypes: seq<string>)
    ensures multiset(Keep(p, dtypes, true)) + multiset(Keep(p, dtypes, false)) == multiset(dtypes)
  {
    if dtypes != [] {
      var init := dtypes[..|dtypes| - 1];
      var last := dtypes[|dtypes| - 1];
      FiltersPartition(p, init);
      var prim := IsPrimitive(p, last);
      var kp := Keep(p, init, prim);
      assert Keep(p, dtypes, prim) == kp + [last];
      assert Keep(p, dtypes, !prim) == Keep(p, init, !prim);
      assert multiset(kp + [last]) == multiset(kp) + multiset{last};
      MultisetInitLast(dtypes);
    }
  }

  /** Filtering commutes with concatenation, so each filter keeps the input
   *  order. */
  lemma {:induction false} FilterAppend(p: PrimitiveTypes, a: seq<string>, b: seq<string>, primitive: bool)
    ensures Keep(p, a + b, primitive) == Keep(p, a, primitive) + Keep(p, b, primitive)
    decreases |b|
  {
    if b != [] {
      var init := b[..|b| - 1];
      FilterAppend(p, a, init, primitive);
      assert (a + b)[..|a + b| - 1] == a + init;
    } else {
      assert a + b == a;
    }
  }

  /** A dtype is kept exactly when it occurs and has the wanted kind. */
  lemma {:induction false} KeepMembers(p: PrimitiveTypes, dtypes: seq<string>, primitive: bool, d: string)
    ensures d in Keep(p, dtypes, primitive) <==> d in dtypes && IsPrimitive(p, d) == primitive
    decreases |dtypes|
  {
    if dtypes != [] {
      var init := dtypes[..|dtypes| - 1];
      KeepMembers(p, init, primitive, d);
      assert dtypes == init + [dtypes[|dtypes| - 1]];
    }
  }

  /** `dtype_to_json`: the JSON type of a mapped name, a panic otherwise. */
  function DtypeToJson(p: PrimitiveTypes, dtype: string): (r: Result<string>)
    ensures r.Ok? <==> dtype in p.jsonMappings
    ensures r.Ok? ==> r.value == p.jsonMappings[dtype]
    ensures r.Err? ==> r == Panic("The data type " + dtype + " is not a primitive type")
  {
    if dtype in p.jsonMappings then Ok(p.jsonMappings[dtype])
    else Panic("The data type " + dtype + " is not a primitive type")
  }

  /** Every primitive has a JSON mapping, so `dtype_to_json` never panics on
   *  one. */
  lemma PrimitivesAreMapped(dtype: string)
    requires IsPrimitive(NewPrimitiveTypes(), dtype)
    ensures DtypeToJson(NewPrimitiveTypes(), dtype).Ok?
  {
  }

  /** "bytes" has a mapping but is not primitive, so it is treated as a
   *  reference. */
  lemma BytesIsAReference()
    ensures !IsPrimitive(NewPrimitiveTypes(), "bytes")
    ensures DtypeToJson(NewPrimitiveTypes(), "bytes") == Ok("string")
  {
  }

  /** float and number map to "number", bool to "boolean", and date and
   *  identifier to "string". */
  lemma AliasMappings()
    ensures JsonMappings["float"] == "number" && JsonMappings["number"] == "number"
    ensures JsonMappings["bool"] == "boolean"
    ensures JsonMappings["date"] == "string" && JsonMappings["identifier"] == "string"
  {
  }
}
