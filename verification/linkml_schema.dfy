/** The LinkML schema document, as `serde` reads and writes it in YAML. Maps
 *  are `IndexMap`s; a field with `skip_serializing_if` is left out when the
 *  predicate holds and reads back as `None` through `#[serde(default)]`. */
module LinkmlSchema {
  import opened Wrappers
  import opened IndexMaps
  import Text

  datatype Example = Example(value: Option<string>, description: Option<string>)

  datatype Annotation = Annotation(value: Option<string>)

  datatype SlotUsage = SlotUsage(pattern: Option<string>)

  /** A slot: a class attribute or a global slot. The integer bounds are
   *  `i64` in the source. */
  datatype AttributeDefinition = AttributeDefinition(
    description: Option<string>,
    slotUri: Option<string>,
    identifier: Option<bool>,
    required: Option<bool>,
    range: Option<string>,
    readonly: Option<bool>,
    multivalued: Option<bool>,
    minimumValue: Option<int>,
    maximumValue: Option<int>,
    recommended: Option<bool>,
    examples: seq<Example>,
    annotations: Option<IndexMap<Annotation>>)

  datatype PermissibleValue = PermissibleValue(
    text: Option<string>,
    meaning: Option<string>,
    description: Option<string>)

  datatype EnumDefinition = EnumDefinition(
    description: Option<string>,
    permissibleValues: IndexMap<PermissibleValue>)

  datatype ClassDefinition = ClassDefinition(
    description: Option<string>,
    classUri: Option<string>,
    slots: seq<string>,
    isA: Option<string>,
    treeRoot: Option<bool>,
    slotUsage: Option<IndexMap<SlotUsage>>,
    attributes: Option<IndexMap<AttributeDefinition>>,
    mixins: seq<string>)

  /** The whole schema. */
  datatype LinkML = LinkML(
    id: string,
    name: string,
    title: string,
    description: Option<string>,
    license: Option<string>,
    seeAlso: seq<string>,
    prefixes: IndexMap<string>,
    defaultPrefix: string,
    defaultRange: Option<string>,
    imports: seq<string>,
    classes: IndexMap<ClassDefinition>,
    slots: IndexMap<AttributeDefinition>,
    enums: IndexMap<EnumDefinition>)

  /** Every line trimmed on both sides. */
  function TrimLines(lines: seq<string>): seq<string>
  {
    if lines == [] then [] else [Text.Trim(lines[0])] + TrimLines(lines[1..])
  }

  /** `remove_newlines`, the deserializer of every description: the lines of
   *  the text, each trimmed, joined by single spaces. */
  function RemoveNewlines(opt: Option<string>): (r: Option<string>)
    ensures r.None? <==> opt.None?
    ensures r.Some? ==> '\n' !in r.value
  {
    match opt
    case None => None
    case Some(s) =>
      OneLineHasNoNewline(s);
      Some(OneLine(s))
  }

  /** The lines of `s`, each trimmed, joined by single spaces. */
  function OneLine(s: string): string
  {
    Text.Join(TrimLines(Text.Lines(s)), " ")
  }

  lemma OneLineHasNoNewline(s: string)
    ensures '\n' !in OneLine(s)
  {
    TrimmedHasNoNewline(Text.Lines(s));
    JoinHasNoNewline(TrimLines(Text.Lines(s)));
  }

  /** Trimming keeps a slice of the line, so a line without '\n' stays so. */
  lemma TrimHasNoNewline(l: string)
    requires '\n' !in l
    ensures '\n' !in Text.Trim(l)
  {
    var t := Text.TrimStart(l);
    assert t == l[|l| - |t|..];
    assert Text.Trim(l) == t[..|Text.Trim(l)|];
    assert forall j :: 0 <= j < |Text.Trim(l)| ==> Text.Trim(l)[j] == l[|l| - |t| + j];
  }

  lemma {:induction false} TrimmedHasNoNewline(lines: seq<string>)
    requires forall k :: 0 <= k < |lines| ==> '\n' !in lines[k]
    ensures |TrimLines(lines)| == |lines|
    ensures forall k :: 0 <= k < |lines| ==> '\n' !in TrimLines(lines)[k]
  {
    if lines != [] {
      var head := Text.Trim(lines[0]);
      var rest := TrimLines(lines[1..]);
      TrimHasNoNewline(lines[0]);
      TrimmedHasNoNewline(lines[1..]);
      assert TrimLines(lines) == [head] + rest;
      forall k | 0 <= k < |lines| ensures '\n' !in TrimLines(lines)[k] {
        if k > 0 {
          assert TrimLines(lines)[k] == rest[k - 1];
        }
      }
    }
  }

  /** Joining pieces without '\n' by a space introduces none. */
  lemma {:induction false} JoinHasNoNewline(parts: seq<string>)
    requires forall k :: 0 <= k < |parts| ==> '\n' !in parts[k]
    ensures '\n' !in Text.Join(parts, " ")
  {
    if |parts| > 1 {
      JoinHasNoNewline(parts[1..]);
      assert Text.Join(parts, " ") == parts[0] + " " + Text.Join(parts[1..], " ");
    }
  }

  /** A description that is already one trimmed line is read unchanged. */
  lemma RemoveNewlinesKeepsOneLine(s: string)
    requires '\n' !in s && s == Text.Trim(s)
    ensures RemoveNewlines(Some(s)) == Some(s)
  {
    if s != [] {
      assert Text.Lines(s) == [s] by {
        assert Text.Split(s, '\n') == [s];
        assert !Text.IsWhitespace(s[|s| - 1]);
      }
      assert TrimLines([s]) == [s];
    }
  }

  /** A description spread over two lines is read back as one line: the two
   *  parts trimmed and separated by one space. */
  lemma RemoveNewlinesTwoLines(a: string, b: string)
    requires '\n' !in a && '\n' !in b && b != []
    requires (a == [] || a[|a| - 1] != '\r') && b[|b| - 1] != '\r'
    ensures RemoveNewlines(Some(a + "\n" + b)) == Some(Text.Trim(a) + " " + Text.Trim(b))
  {
    assert OneLine(a + "\n" + b) == Text.Trim(a) + " " + Text.Trim(b) by {
      OneLineOfTwo(a, b);
    }
  }

  lemma OneLineOfTwo(a: string, b: string)
    requires '\n' !in a && '\n' !in b && b != []
    requires (a == [] || a[|a| - 1] != '\r') && b[|b| - 1] != '\r'
    ensures OneLine(a + "\n" + b) == Text.Trim(a) + " " + Text.Trim(b)
  {
    var s := a + "\n" + b;
    var t := [Text.Trim(a), Text.Trim(b)];
    LinesOfTwo(a, b);
    TrimTwo(a, b);
    assert Text.Join(t, " ") == Text.Trim(a) + " " + Text.Trim(b) by {
      assert t[1..] == [Text.Trim(b)];
    }
  }

  lemma TrimTwo(a: string, b: string)
    ensures TrimLines([a, b]) == [Text.Trim(a), Text.Trim(b)]
  {
    assert [a, b][1..] == [b];
    TrimOne(b);
  }

  lemma TrimOne(a: string)
    ensures TrimLines([a]) == [Text.Trim(a)]
  {
    assert [a][1..] == [];
  }

  lemma LinesOfTwo(a: string, b: string)
    requires '\n' !in a && '\n' !in b && b != []
    requires (a == [] || a[|a| - 1] != '\r') && b[|b| - 1] != '\r'
    ensures Text.Lines(a + "\n" + b) == [a, b]
  {
    var s := a + "\n" + b;
    assert s[..|a|] == a && s[|a| + 1..] == b;
    assert Text.IndexOf(s, '\n') == |a| by {
      assert s[|a|] == '\n' && '\n' !in s[..|a|];
      IndexOfFirst(s, '\n', |a|);
    }
    assert Text.Split(b, '\n') == [b];
    assert Text.Split(s, '\n') == [a, b];
    assert Text.DropCarriageReturns([a, b]) == [a, b] by {
      assert [a, b][1..] == [b];
      assert Text.DropCarriageReturns([b]) == [b];
    }
  }

  /** The first occurrence is where `IndexOf` stops. */
  lemma {:induction false} IndexOfFirst(s: string, c: char, i: nat)
    requires i < |s| && s[i] == c && c !in s[..i]
    ensures Text.IndexOf(s, c) == i
  {
    if i > 0 {
      assert s[1..][..i - 1] == s[..i][1..];
      IndexOfFirst(s[1..], c, i - 1);
    }
  }

  /** `is_empty_string_option`: the skip rule of text fields. */
  predicate IsEmptyStringOption(s: Option<string>)
  {
    s.None? || s.value == ""
  }

  /** `is_false_option`: the skip rule of flags. */
  predicate IsFalseOption(b: Option<bool>)
  {
    b.None? || !b.value
  }

  /** A description written with `is_empty_string_option` as its skip rule
   *  and read back through `remove_newlines` and the `None` default. */
  function DescriptionReadBack(d: Option<string>): Option<string>
  {
    RemoveNewlines(if IsEmptyStringOption(d) then None else d)
  }

  /** An empty description is not written and reads back as `None`; a
   *  non-empty one-line trimmed description survives the round trip. */
  lemma DescriptionRoundTrip(d: Option<string>)
    ensures DescriptionReadBack(d).None? <==> d.None? || d == Some("")
    ensures d.Some? && d.value != "" && '\n' !in d.value && d.value == Text.Trim(d.value) ==>
      DescriptionReadBack(d) == d
  {
    if d.Some? && d.value != "" && '\n' !in d.value && d.value == Text.Trim(d.value) {
      RemoveNewlinesKeepsOneLine(d.value);
    }
  }

  /** A flag written with `is_false_option` as its skip rule and read back
   *  with the `None` default. */
  function FlagReadBack(b: Option<bool>): Option<bool>
  {
    if IsFalseOption(b) then None else b
  }

  /** Skipping false flags loses nothing `unwrap_or(false)` can see: only a
   *  true flag is written, and the value read back reads the same. */
  lemma FlagRoundTrip(b: Option<bool>)
    ensures FlagReadBack(b).Some? <==> b == Some(true)
    ensures FlagReadBack(b).UnwrapOr(false) == b.UnwrapOr(false)
  {
  }
}
