/** The front-matter configuration and the data model value shared by the
 *  parser, the validator and the converters. */
module Models {
  import opened Wrappers
  import opened Objects

  /** A `HashMap<String, String>` listed in its iteration order, which the
   *  model takes as given. */
  type StringMap = seq<(string, string)>

  /** First value stored under `k`. */
  function Lookup(m: StringMap, k: string): (r: Option<string>)
    ensures r.Some? <==> exists i :: 0 <= i < |m| && m[i].0 == k
    ensures r.Some? ==> (k, r.value) in m
  {
    if m == [] then None
    else if m[0].0 == k then Some(m[0].1)
    else
      assert forall i :: 0 < i < |m| ==> m[i] == m[1..][i - 1];
      Lookup(m[1..], k)
  }

  /** `FrontMatter`. */
  datatype FrontMatter = FrontMatter(
    id: Option<string>,
    idField: bool,
    prefixes: Option<StringMap>,
    nsmap: Option<StringMap>,
    repo: string,
    prefix: string)

  const DefaultRepo: string := "http://mdmodel.net/"
  const DefaultPrefix: string := "md"

  /** `FrontMatter::new` / `Default`: the defaults a front matter without
   *  these keys takes. */
  function DefaultFrontMatter(): (r: FrontMatter)
    ensures r.idField && r.prefixes.None? && r.nsmap.None? && r.id.None?
    ensures r.repo == DefaultRepo && r.prefix == DefaultPrefix
  {
    FrontMatter(None, true, None, None, DefaultRepo, DefaultPrefix)
  }

  /** `config.clone().unwrap_or_default()`. */
  function ConfigOrDefault(config: Option<FrontMatter>): (r: FrontMatter)
    ensures config.Some? ==> r == config.value
    ensures config.None? ==> r == DefaultFrontMatter()
  {
    if config.Some? then config.value else DefaultFrontMatter()
  }

  /** `DataModel` as a value. */
  datatype Model = Model(
    name: Option<string>,
    objects: seq<ObjectData>,
    enums: seq<EnumData>,
    config: Option<FrontMatter>)

  function ObjectNames(objects: seq<ObjectData>): (r: seq<string>)
    ensures |r| == |objects| && forall i :: 0 <= i < |objects| ==> r[i] == objects[i].name
  {
    seq(|objects|, i requires 0 <= i < |objects| => objects[i].name)
  }

  function EnumNames(enums: seq<EnumData>): (r: seq<string>)
    ensures |r| == |enums| && forall i :: 0 <= i < |enums| ==> r[i] == enums[i].name
  {
    seq(|enums|, i requires 0 <= i < |enums| => enums[i].name)
  }

  /** The first object called `name`. */
  function FindObject(objects: seq<ObjectData>, name: string): (r: Option<ObjectData>)
    ensures r.Some? <==> name in ObjectNames(objects)
    ensures r.Some? ==> r.value in objects && r.value.name == name
  {
    if objects == [] then None
    else if objects[0].name == name then Some(objects[0])
    else
      assert ObjectNames(objects) == [objects[0].name] + ObjectNames(objects[1..]);
      FindObject(objects[1..], name)
  }

  /** The first enumeration called `name`. */
  function FindEnum(enums: seq<EnumData>, name: string): (r: Option<EnumData>)
    ensures r.Some? <==> name in EnumNames(enums)
    ensures r.Some? ==> r.value in enums && r.value.name == name
  {
    if enums == [] then None
    else if enums[0].name == name then Some(enums[0])
    else
      assert EnumNames(enums) == [enums[0].name] + EnumNames(enums[1..]);
      FindEnum(enums[1..], name)
  }
}
