/** The XML descriptor of an attribute: `@name` marks an XML attribute, any
 *  other text an XML element. */
module XmlTypes {
  import opened Wrappers
  import Text

  datatype XMLType =
    | Attribute(isAttr: bool, name: string)
    | Element(isAttr: bool, name: string)

  /** The serialised form: the object `{"is_attr": ..., "name": ...}`. */
  datatype XMLTypeRecord = XMLTypeRecord(isAttr: bool, name: string)

  /** The flag agrees with the variant, as every value the source builds does. */
  predicate Consistent(x: XMLType)
  {
    x.Attribute? == x.isAttr
  }

  /** `XMLType::from_str`: strip exactly one leading '@'. It never fails. */
  function FromStr(s: string): (r: Result<XMLType>)
    ensures r.Ok? && Consistent(r.value)
    ensures r.value.Attribute? <==> Text.StartsWith(s, "@")
    ensures (if r.value.Attribute? then "@" + r.value.name else r.value.name) == s
  {
    if |s| > 0 && s[0] == '@' then Ok(Attribute(true, s[1..])) else Ok(Element(false, s))
  }

  /** `Serialize for XMLType`: the flag and the name, whatever the variant. */
  function Serialize(x: XMLType): (r: XMLTypeRecord)
    ensures r.isAttr == x.isAttr && r.name == x.name
  {
    match x
    case Attribute(a, n) => XMLTypeRecord(a, n)
    case Element(a, n) => XMLTypeRecord(a, n)
  }

  /** `Deserialize for XMLType`: the flag picks the variant and is forced to
   *  agree with it. */
  function Deserialize(rec: XMLTypeRecord): (r: XMLType)
    ensures Consistent(r)
    ensures r.Attribute? <==> rec.isAttr
    ensures r.name == rec.name
  {
    if rec.isAttr then Attribute(true, rec.name) else Element(false, rec.name)
  }

  /** Serialising and reading back gives the value again whenever its flag
   *  matches its variant. */
  lemma DeserializeSerialize(x: XMLType)
    requires Consistent(x)
    ensures Deserialize(Serialize(x)) == x
  {
  }

  /** A record survives reading and writing back unchanged. */
  lemma SerializeDeserialize(rec: XMLTypeRecord)
    ensures Serialize(Deserialize(rec)) == rec
  {
  }

  /** A value with a flag that contradicts its variant is not reproduced:
   *  reading it back repairs the variant. */
  lemma InconsistentNotReproduced(x: XMLType)
    requires !Consistent(x)
    ensures Deserialize(Serialize(x)) != x
  {
  }
}
