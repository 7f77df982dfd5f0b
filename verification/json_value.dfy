/** `serde_json::Value`: a JSON document as a tree. An object keeps its
 *  entries in the order the map yields them. */
module JsonValues {
  import opened Wrappers

  datatype Json =
    | JNull
    | JBool(b: bool)
    | JNumber(literal: string)
    | JString(s: string)
    | JArray(items: seq<Json>)
    | JObject(fields: seq<(string, Json)>)

  /** The value of the first entry called `key`. */
  function Field(fields: seq<(string, Json)>, key: string): (r: Option<Json>)
    ensures r.Some? ==> (key, r.value) in fields
    ensures r.None? <==> forall i :: 0 <= i < |fields| ==> fields[i].0 != key
  {
    if fields == [] then None
    else if fields[0].0 == key then Some(fields[0].1)
    else
      var r := Field(fields[1..], key);
      assert r.None? <==> forall i :: 0 <= i < |fields| ==> fields[i].0 != key by {
        assert forall i :: 1 <= i < |fields| ==> fields[i] == fields[1..][i - 1];
      }
      r
  }

  /** `Value::get(key)`: only an object has entries. */
  function Get(v: Json, key: string): (r: Option<Json>)
    ensures r.Some? ==> v.JObject? && (key, r.value) in v.fields
    ensures !v.JObject? ==> r.None?
  {
    if v.JObject? then Field(v.fields, key) else None
  }

  function AsStr(v: Json): (r: Option<string>)
    ensures r.Some? <==> v.JString?
  {
    if v.JString? then Some(v.s) else None
  }

  function AsArray(v: Json): (r: Option<seq<Json>>)
    ensures r.Some? <==> v.JArray?
  {
    if v.JArray? then Some(v.items) else None
  }

  function AsBool(v: Json): (r: Option<bool>)
    ensures r.Some? <==> v.JBool?
  {
    if v.JBool? then Some(v.b) else None
  }

  /** The keys of an object's entries, in order. */
  function FieldKeys(fields: seq<(string, Json)>): (r: seq<string>)
    ensures |r| == |fields| && forall i :: 0 <= i < |fields| ==> r[i] == fields[i].0
  {
    seq(|fields|, i requires 0 <= i < |fields| => fields[i].0)
  }

  /** An object's entries with `key` set to `x`: the first entry called
   *  `key` gets the new value in place, otherwise the entry is appended. */
  function Put(fields: seq<(string, Json)>, key: string, x: Json): (r: seq<(string, Json)>)
    ensures Field(r, key) == Some(x)
    ensures forall k :: k != key ==> Field(r, k) == Field(fields, k)
  {
    if fields == [] then [(key, x)]
    else if fields[0].0 == key then [(key, x)] + fields[1..]
    else
      var rest := Put(fields[1..], key, x);
      FieldCons(fields[0], rest);
      FieldCons(fields[0], fields[1..]);
      assert fields == [fields[0]] + fields[1..];
      [fields[0]] + rest
  }

  lemma FieldCons(e: (string, Json), rest: seq<(string, Json)>)
    ensures forall k :: Field([e] + rest, k) == if e.0 == k then Some(e.1) else Field(rest, k)
  {
    forall k ensures Field([e] + rest, k) == if e.0 == k then Some(e.1) else Field(rest, k) {
      assert ([e] + rest)[1..] == rest;
    }
  }

  /** `value[key] = x`: `null` turns into an object holding the one entry;
   *  assigning into any other non-object value panics in the source and is
   *  excluded here. */
  function SetKey(v: Json, key: string, x: Json): (r: Json)
    requires v.JNull? || v.JObject?
    ensures r.JObject? && Get(r, key) == Some(x)
    ensures forall k :: k != key ==> Get(r, k) == Get(v, k)
  {
    if v.JNull? then JObject([(key, x)]) else JObject(Put(v.fields, key, x))
  }

  /** `&mut value[key]` read back: the entry, or the `null` the source
   *  inserts for a missing key. */
  function At(v: Json, key: string): (r: Json)
    ensures Get(v, key).Some? ==> r == Get(v, key).value
    ensures Get(v, key).None? ==> r == JNull
  {
    if Get(v, key).Some? then Get(v, key).value else JNull
  }
}
