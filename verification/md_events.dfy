/** The markdown event stream the parser reads, and what each event does to
 *  the objects and enumerations being collected: the specification the
 *  imperative parser in `MarkdownParser` is proved against. */
module MarkdownEvents {
  import opened Wrappers
  import opened Attributes
  import opened Objects
  import opened MarkdownText
  import Str = Text

  // ---------------------------------------------------------------------
  // Events
  // ---------------------------------------------------------------------

  /** The pulldown-cmark tags the parser tells apart; any other tag is
   *  `OtherTag`. `List(None)` is a bullet list, `List(Some(n))` a numbered
   *  one starting at `n`. */
  datatype Tag =
    | Heading(level: nat)
    | List(first: Option<nat>)
    | Item
    | FencedCodeBlock
    | IndentedCodeBlock
    | Emphasis
    | Strong
    | OtherTag

  datatype Event = Start(tag: Tag) | End(tag: Tag) | Text(text: string) | OtherEvent

  /** `iterator.next()` at position `pos`: None once the stream is used up. */
  function At(events: seq<Event>, pos: nat): (r: Option<Event>)
    ensures r.Some? <==> pos < |events|
  {
    if pos < |events| then Some(events[pos]) else None
  }

  /** The position after `iterator.next()`. */
  function Advance(events: seq<Event>, pos: nat): (q: nat)
    requires pos <= |events|
    ensures q <= |events| && (q == pos + 1 <==> pos < |events|) && (pos == |events| ==> q == pos)
  {
    if pos < |events| then pos + 1 else pos
  }

  // ---------------------------------------------------------------------
  // Names
  // ---------------------------------------------------------------------

  const NamePanic: string := "Could not extract name"
  const AttrNamePanic: string := "Could not extract name. Plesae check the markdown file."

  /** `extract_name`: the text of the first Text event among the next three,
   *  and the position after it; a panic when none of them is a Text. The
   *  panic message reads a fourth event, and is the unwrap panic when
   *  there is none. */
  function NameAt(events: seq<Event>, pos: nat): (r: Result<(string, nat)>)
    requires pos <= |events|
    ensures r.Ok? ==> pos < r.value.1 <= pos + 3 && r.value.1 <= |events|
    ensures r.Ok? ==> events[r.value.1 - 1] == Text(r.value.0)
    ensures r.Ok? ==> forall j :: pos <= j < r.value.1 - 1 ==> !events[j].Text?
    ensures r.Err? <==> forall j :: pos <= j < pos + 3 && j < |events| ==> !events[j].Text?
    ensures r.Err? ==> r == Panic(if pos + 3 < |events| then NamePanic else NoneUnwrapPanic)
  {
    if pos < |events| && events[pos].Text? then Ok((events[pos].text, pos + 1))
    else if pos + 1 < |events| && events[pos + 1].Text? then Ok((events[pos + 1].text, pos + 2))
    else if pos + 2 < |events| && events[pos + 2].Text? then Ok((events[pos + 2].text, pos + 3))
    else if pos + 3 < |events| then Panic(NamePanic)
    else Panic(NoneUnwrapPanic)
  }

  /** `extract_attr_name_required`: the name is read as by `extract_name`,
   *  and the attribute is required exactly when the name is not the very
   *  next event, i.e. when emphasis or strong markup wraps it. */
  function AttrNameAt(events: seq<Event>, pos: nat): (r: Result<(bool, string, nat)>)
    requires pos <= |events|
    ensures r.Err? <==> NameAt(events, pos).Err?
    ensures r.Err? ==> r == Panic(AttrNamePanic)
    ensures r.Ok? ==> (r.value.1, r.value.2) == NameAt(events, pos).value
    ensures r.Ok? ==> pos < |events| && (r.value.0 <==> !events[pos].Text?)
  {
    match NameAt(events, pos)
    case Err(_, _) => Panic(AttrNamePanic)
    case Ok((name, q)) => Ok((q != pos + 1, name, q))
  }

  /** `process_object_heading`: a new object named by the first word of the
   *  heading, with the heading's first `(...)` group as its term. */
  function ObjectHeadingAt(events: seq<Event>, pos: nat): (r: Result<(ObjectData, nat)>)
    requires pos <= |events|
    ensures r.Ok? ==> pos < r.value.1 <= |events|
    ensures r.Ok? <==> NameAt(events, pos).Ok? && HeadingName(NameAt(events, pos).value.0).Ok?
    ensures r.Ok? ==> var heading := NameAt(events, pos).value.0;
      r.value.0 == NewObject(HeadingName(heading).value, ExtractObjectTerm(heading))
  {
    match NameAt(events, pos)
    case Err(msg, panicked) => Err(msg, panicked)
    case Ok((heading, q)) =>
      match HeadingName(heading)
      case Err(msg, panicked) => Err(msg, panicked)
      case Ok(name) => Ok((NewObject(name, ExtractObjectTerm(heading)), q))
  }

  // ---------------------------------------------------------------------
  // The object pass
  // ---------------------------------------------------------------------

  datatype ParserState = InDefinition | OutsideDefinition | InHeading

  /** The position in the stream, the objects so far, the model name and
   *  the state. */
  datatype ObjectPass = ObjectPass(pos: nat, objects: seq<ObjectData>, name: Option<string>, state: ParserState)

  /** Inside a heading there is always a last object: the heading pushed
   *  it. A definition may be entered by the end of a level-3 heading that
   *  was never opened, so there the last object may be missing. */
  predicate PassInv(events: seq<Event>, p: ObjectPass)
  {
    p.pos <= |events| && (p.state == InHeading ==> p.objects != [])
  }

  function Last(objects: seq<ObjectData>): ObjectData
    requires objects != []
  {
    objects[|objects| - 1]
  }

  /** The objects with the last one replaced. */
  function WithLast(objects: seq<ObjectData>, o: ObjectData): (r: seq<ObjectData>)
    requires objects != []
    ensures |r| == |objects| && Last(r) == o && r[..|r| - 1] == objects[..|objects| - 1]
  {
    objects[..|objects| - 1] + [o]
  }

  /** Only the last object may differ, and in its attributes alone; there is
   *  still at least one attribute. */
  predicate OnlyLastAttributes(before: seq<ObjectData>, after: seq<ObjectData>)
    requires before != []
  {
    |after| == |before| && after[..|after| - 1] == before[..|before| - 1]
    && Last(after) == Last(before).(attributes := Last(after).attributes)
    && HasAttributes(Last(after))
  }

  const AddOptionPanic: string := "Failed to add option"

  /** `distribute_attribute_options`: a string with ':' becomes an option of
   *  the last attribute of the last object; any other string a new,
   *  non-required attribute of the last object. A rejected option panics. */
  function Distribute(objects: seq<ObjectData>, s: string): (r: Result<seq<ObjectData>>)
    requires objects != [] && HasAttributes(Last(objects))
    ensures r.Ok? ==> OnlyLastAttributes(objects, r.value)
    ensures ':' !in s ==>
      r == Ok(WithLast(objects, Last(objects).(attributes := Last(objects).attributes + [NewAttribute(s, false)])))
    ensures ':' in s ==>
      var o := Last(objects);
      var a := o.attributes[|o.attributes| - 1];
      var (key, value) := ProcessOption(s).value;
      var added := AddOptionSpec(a, NewAttrOption(key, value));
      (r.Err? <==> added.Err?) && (r.Err? ==> r == Panic(AddOptionPanic))
      && (r.Ok? ==> Last(r.value).attributes == o.attributes[..|o.attributes| - 1] + [added.value])
  {
    var o := Last(objects);
    if ':' in s then
      var (key, value) := ProcessOption(s).value;
      var a := o.attributes[|o.attributes| - 1];
      var added := AddOptionSpec(a, NewAttrOption(key, value));
      if added.Err? then Panic(AddOptionPanic)
      else Ok(WithLast(objects, o.(attributes := o.attributes[..|o.attributes| - 1] + [added.value])))
    else Ok(WithLast(objects, o.(attributes := o.attributes + [NewAttribute(s, false)])))
  }

  /** The strings of one option list distributed in order; the first panic
   *  ends it. */
  function DistributeAll(objects: seq<ObjectData>, strs: seq<string>): (r: Result<seq<ObjectData>>)
    requires objects != [] && HasAttributes(Last(objects))
    ensures r.Ok? ==> OnlyLastAttributes(objects, r.value)
    decreases |strs|
  {
    if strs == [] then Ok(objects)
    else
      match Distribute(objects, strs[0])
      case Err(msg, panicked) => Err(msg, panicked)
      case Ok(next) =>
        var r := DistributeAll(next, strs[1..]);
        assert r.Ok? ==> OnlyLastAttributes(objects, r.value) by {
          if r.Ok? {
            assert r.value[..|r.value| - 1] == next[..|next| - 1];
          }
        }
        r
  }

  /** `extract_attribute_options`: the names of the items up to the end of
   *  the list; a "[" text appends "[]" to the latest name, and panics when
   *  there is none yet. */
  function OptionsFrom(events: seq<Event>, pos: nat, acc: seq<string>): (r: Result<(seq<string>, nat)>)
    requires pos <= |events|
    ensures r.Ok? ==> pos <= r.value.1 <= |events|
    ensures r.Err? ==> r.panicked
    decreases |events| - pos
  {
    if pos == |events| then Ok((acc, pos))
    else
      var e := events[pos];
      if e == Start(Item) then
        match NameAt(events, pos + 1)
        case Err(msg, panicked) => Err(msg, panicked)
        case Ok((name, q)) => OptionsFrom(events, q, acc + [name])
      else if e == End(List(None)) then Ok((acc, pos + 1))
      else if e == Text("[") then
        if acc == [] then Panic(NoneUnwrapPanic)
        else OptionsFrom(events, pos + 1, acc[..|acc| - 1] + [acc[|acc| - 1] + "[]"])
      else OptionsFrom(events, pos + 1, acc)
  }

  const InheritancePanic: string := "Inheritance syntax error. Expected parent name after opening bracket."

  /** A "[" text inside a heading: the next event must be a Text other
   *  than "]", and names the parent of the last object. */
  function ParentEvent(events: seq<Event>, p: ObjectPass): (r: Result<ObjectPass>)
    requires PassInv(events, p) && p.state == InHeading
    ensures r.Ok? <==> p.pos < |events| && events[p.pos].Text? && events[p.pos].text != "]"
    ensures r.Err? ==> r == Panic(InheritancePanic)
    ensures r.Ok? ==> r.value == p.(pos := p.pos + 1,
      objects := WithLast(p.objects, Last(p.objects).(parent := Some(events[p.pos].text))))
  {
    if p.pos < |events| && events[p.pos].Text? && events[p.pos].text != "]" then
      Ok(p.(pos := p.pos + 1, objects := WithLast(p.objects, Last(p.objects).(parent := Some(events[p.pos].text)))))
    else Panic(InheritancePanic)
  }

  /** The start of a bullet list inside a definition. The first list of an
   *  object skips one event and reads one attribute; a later list is read
   *  as option lines of the latest attribute. Without an object it panics. */
  function ListEvent(events: seq<Event>, p: ObjectPass): (r: Result<ObjectPass>)
    requires PassInv(events, p) && p.state != OutsideDefinition
    ensures p.objects == [] ==> r == Panic(NoneUnwrapPanic)
    ensures r.Ok? ==> p.pos <= r.value.pos <= |events|
    ensures r.Ok? ==> r.value.name == p.name && r.value.state == p.state
    ensures r.Ok? ==> r.value.objects != [] && HasAttributes(Last(r.value.objects))
    ensures r.Ok? && !HasAttributes(Last(p.objects)) ==>
      AttrNameAt(events, Advance(events, p.pos)).Ok? &&
      var (required, n, _) := AttrNameAt(events, Advance(events, p.pos)).value;
      r.value.objects == WithLast(p.objects, Last(p.objects).(attributes := [NewAttribute(n, required)]))
    ensures r.Ok? && HasAttributes(Last(p.objects)) ==> OnlyLastAttributes(p.objects, r.value.objects)
  {
    if p.objects == [] then Panic(NoneUnwrapPanic)
    else
    var o := Last(p.objects);
    if !HasAttributes(o) then
      match AttrNameAt(events, Advance(events, p.pos))
      case Err(msg, panicked) => Err(msg, panicked)
      case Ok((required, n, q)) =>
        assert o.attributes + [NewAttribute(n, required)] == [NewAttribute(n, required)];
        Ok(p.(pos := q, objects := WithLast(p.objects, o.(attributes := o.attributes + [NewAttribute(n, required)]))))
    else
      match OptionsFrom(events, p.pos, [])
      case Err(msg, panicked) => Err(msg, panicked)
      case Ok((strs, q)) =>
        match DistributeAll(p.objects, strs)
        case Err(msg, panicked) => Err(msg, panicked)
        case Ok(objects) => Ok(p.(pos := q, objects := objects))
  }

  /** An item inside a definition: one attribute, required when its name is
   *  emphasised. The name is read before the last object is looked up. */
  function ItemEvent(events: seq<Event>, p: ObjectPass): (r: Result<ObjectPass>)
    requires PassInv(events, p) && p.state != OutsideDefinition
    ensures r.Err? <==> NameAt(events, p.pos).Err? || p.objects == []
    ensures NameAt(events, p.pos).Ok? && p.objects == [] ==> r == Panic(NoneUnwrapPanic)
    ensures r.Ok? ==>
      var (required, n, q) := AttrNameAt(events, p.pos).value;
      r.value == p.(pos := q, objects := WithLast(p.objects,
        Last(p.objects).(attributes := Last(p.objects).attributes + [NewAttribute(n, required)])))
  {
    match AttrNameAt(events, p.pos)
    case Err(msg, panicked) => Err(msg, panicked)
    case Ok((required, n, q)) =>
      if p.objects == [] then Panic(NoneUnwrapPanic)
      else
      var o := Last(p.objects);
      Ok(p.(pos := q, objects := WithLast(p.objects, o.(attributes := o.attributes + [NewAttribute(n, required)]))))
  }

  /** `process_object_event` on the event just read. */
  function ObjectEvent(events: seq<Event>, p: ObjectPass, e: Event): (r: Result<ObjectPass>)
    requires PassInv(events, p)
    ensures r.Ok? ==> PassInv(events, r.value) && p.pos <= r.value.pos
    ensures r.Ok? ==> |p.objects| <= |r.value.objects| <= |p.objects| + 1
    ensures r.Ok? && p.objects != [] ==> r.value.objects[..|p.objects| - 1] == p.objects[..|p.objects| - 1]
  {
    if e == Start(Heading(1)) then
      match NameAt(events, p.pos)
      case Err(msg, panicked) => Err(msg, panicked)
      case Ok((n, q)) => Ok(p.(pos := q, name := Some(n)))
    else if e == Start(Heading(2)) then Ok(p.(state := OutsideDefinition))
    else if e == Start(Heading(3)) then
      match ObjectHeadingAt(events, p.pos)
      case Err(msg, panicked) => Err(msg, panicked)
      case Ok((o, q)) =>
        assert (p.objects + [o])[..|p.objects|] == p.objects;
        Ok(p.(pos := q, objects := p.objects + [o], state := InHeading))
    else if e == End(Heading(3)) then Ok(p.(state := InDefinition))
    else if e == Text("[") then
      if p.state == InHeading then ParentEvent(events, p) else Ok(p)
    else if e == Start(List(None)) then
      if p.state == OutsideDefinition then Ok(p) else ListEvent(events, p)
    else if e == Start(Item) then
      if p.state == OutsideDefinition then Ok(p) else ItemEvent(events, p)
    else if e.Text? then
      if p.state == InDefinition then
        if p.objects == [] then Panic(NoneUnwrapPanic)
        else
        var o := Last(p.objects);
        Ok(p.(objects := WithLast(p.objects, o.(docstring := o.docstring + e.text))))
      else Ok(p)
    else Ok(p)
  }

  /** The object pass: every event read by the main loop is processed, and
   *  the events the handlers read themselves are skipped by it. */
  function ObjectsPass(events: seq<Event>, p: ObjectPass): (r: Result<ObjectPass>)
    requires PassInv(events, p)
    ensures r.Ok? ==> PassInv(events, r.value) && r.value.pos == |events|
    decreases |events| - p.pos
  {
    if p.pos == |events| then Ok(p)
    else
      match ObjectEvent(events, p.(pos := p.pos + 1), events[p.pos])
      case Err(msg, panicked) => Err(msg, panicked)
      case Ok(q) => ObjectsPass(events, q)
  }

  /** The pass a document starts with: nothing read, outside any definition. */
  function StartPass(): (p: ObjectPass)
    ensures forall events :: PassInv(events, p)
  {
    ObjectPass(0, [], None, OutsideDefinition)
  }

  // ---------------------------------------------------------------------
  // Properties of the object pass
  // ---------------------------------------------------------------------

  /** A level-3 heading opens a new object without attributes and enters
   *  the heading. */
  lemma HeadingOpensObject(events: seq<Event>, p: ObjectPass)
    requires PassInv(events, p)
    ensures var r := ObjectEvent(events, p, Start(Heading(3)));
      r.Ok? <==> ObjectHeadingAt(events, p.pos).Ok?
    ensures var r := ObjectEvent(events, p, Start(Heading(3)));
      r.Ok? ==>
        r.value.state == InHeading && |r.value.objects| == |p.objects| + 1
        && r.value.objects[..|p.objects|] == p.objects
        && Last(r.value.objects).attributes == [] && Last(r.value.objects).parent.None?
  {
  }

  /** A level-2 heading leaves the definition and changes nothing else. */
  lemma HeadingLeavesDefinition(events: seq<Event>, p: ObjectPass)
    requires PassInv(events, p)
    ensures ObjectEvent(events, p, Start(Heading(2))) == Ok(p.(state := OutsideDefinition))
  {
  }

  /** Outside a definition only a level-3 heading touches the objects; lists,
   *  items and text are ignored. */
  lemma OutsideKeepsObjects(events: seq<Event>, p: ObjectPass, e: Event)
    requires PassInv(events, p) && p.state == OutsideDefinition && e != Start(Heading(3))
    ensures var r := ObjectEvent(events, p, e);
      r.Ok? ==> r.value.objects == p.objects && (e != End(Heading(3)) ==> r.value.state == OutsideDefinition)
  {
  }

  /** Text is added to the docstring of the last object only inside a
   *  definition; a "[" text is never added. */
  lemma TextOnlyInDefinition(events: seq<Event>, p: ObjectPass, t: string)
    requires PassInv(events, p)
    ensures t != "[" && p.state == InDefinition && p.objects != [] ==>
      ObjectEvent(events, p, Text(t)) ==
        Ok(p.(objects := WithLast(p.objects, Last(p.objects).(docstring := Last(p.objects).docstring + t))))
    ensures t != "[" && p.state != InDefinition ==> ObjectEvent(events, p, Text(t)) == Ok(p)
    ensures p.state != InHeading ==> ObjectEvent(events, p, Text("[")) == Ok(p)
  {
  }

  /** Each item of a definition adds one attribute, which is required
   *  exactly when the item's name is not the very next event. */
  lemma ItemAddsAttribute(events: seq<Event>, p: ObjectPass)
    requires PassInv(events, p) && p.state != OutsideDefinition
    ensures var r := ObjectEvent(events, p, Start(Item));
      r.Ok? ==>
        r.value.objects != [] &&
        var attrs := Last(r.value.objects).attributes;
        attrs[..|attrs| - 1] == Last(p.objects).attributes
        && (attrs[|attrs| - 1].required <==> !events[p.pos].Text?)
        && events[r.value.pos - 1] == Text(attrs[|attrs| - 1].name)
  {
    var r := ObjectEvent(events, p, Start(Item));
    if r.Ok? {
      var attrs := Last(r.value.objects).attributes;
      assert attrs == Last(p.objects).attributes + [attrs[|attrs| - 1]];
    }
  }

  // ---------------------------------------------------------------------
  // The enumeration pass
  // ---------------------------------------------------------------------

  datatype EnumPass = EnumPass(pos: nat, enums: seq<EnumData>)

  /** `process_enum_event`: a level-3 heading opens a candidate enumeration
   *  named by the heading text; the text of a fenced code block is read
   *  as mappings of the latest one. */
  function EnumEvent(events: seq<Event>, p: EnumPass, e: Event): (r: Result<EnumPass>)
    requires p.pos <= |events|
    ensures r.Ok? ==> p.pos <= r.value.pos <= |events|
    ensures r.Ok? ==> |p.enums| <= |r.value.enums| <= |p.enums| + 1
  {
    if e == Start(Heading(3)) then
      match NameAt(events, p.pos)
      case Err(msg, panicked) => Err(msg, panicked)
      case Ok((n, q)) => Ok(EnumPass(q, p.enums + [EnumData(n, [], "", None)]))
    else if e == Start(FencedCodeBlock) then
      if p.pos == |events| then Panic(NoneUnwrapPanic)
      else if events[p.pos].Text? then
        if p.enums == [] then Panic(NoneUnwrapPanic)
        else
          var last := p.enums[|p.enums| - 1];
          var last' := last.(mappings := Mappings(last.mappings, Str.Split(events[p.pos].text, '\n')));
          Ok(EnumPass(p.pos + 1, p.enums[..|p.enums| - 1] + [last']))
      else Ok(p.(pos := p.pos + 1))
    else Ok(p)
  }

  function EnumsPass(events: seq<Event>, p: EnumPass): (r: Result<EnumPass>)
    requires p.pos <= |events|
    ensures r.Ok? ==> r.value.pos == |events|
    decreases |events| - p.pos
  {
    if p.pos == |events| then Ok(p)
    else
      match EnumEvent(events, p.(pos := p.pos + 1), events[p.pos])
      case Err(msg, panicked) => Err(msg, panicked)
      case Ok(q) => EnumsPass(events, q)
  }

  /** A level-3 heading opens a candidate enumeration without mappings,
   *  whatever the definition state of the object pass. */
  lemma HeadingOpensEnum(events: seq<Event>, p: EnumPass)
    requires p.pos <= |events|
    ensures var r := EnumEvent(events, p, Start(Heading(3)));
      (r.Ok? <==> NameAt(events, p.pos).Ok?)
      && (r.Ok? ==> r.value.enums == p.enums + [EnumData(NameAt(events, p.pos).value.0, [], "", None)])
  {
  }

  /** A code block before any level-3 heading panics. */
  lemma CodeBlockNeedsEnum(events: seq<Event>, pos: nat)
    requires pos < |events| && events[pos].Text?
    ensures EnumEvent(events, EnumPass(pos, []), Start(FencedCodeBlock)).Err?
  {
  }
}
