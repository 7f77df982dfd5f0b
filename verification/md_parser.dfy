/** The two passes of the markdown parser over the event iterator, as the
 *  source runs them: one event at a time, updating the collected objects,
 *  the model name, the definition state and the enumerations in place.
 *  Every method is proved to do what `MarkdownEvents` specifies. */
module MarkdownParser {
  import opened Wrappers
  import opened Attributes
  import opened Objects
  import opened MarkdownText
  import opened MarkdownEvents

  class EventParser {
    /** The events pulldown-cmark yields for the cleaned document. */
    const events: seq<Event>
    /** How many events the iterator has handed out. */
    var pos: nat
    var objects: seq<ObjectData>
    var name: Option<string>
    var state: ParserState
    var enums: seq<EnumData>

    /** The state of the object pass. */
    function Pass(): ObjectPass
      reads this
    {
      ObjectPass(pos, objects, name, state)
    }

    constructor (events: seq<Event>)
      ensures this.events == events && Pass() == StartPass() && enums == []
    {
      this.events := events;
      pos := 0;
      objects := [];
      name := None;
      state := OutsideDefinition;
      enums := [];
    }

    /** `iterator.next()`. */
    method Next() returns (e: Option<Event>)
      requires pos <= |events|
      modifies this
      ensures e == At(events, old(pos)) && pos == Advance(events, old(pos))
      ensures objects == old(objects) && name == old(name) && state == old(state) && enums == old(enums)
    {
      if pos < |events| {
        e := Some(events[pos]);
        pos := pos + 1;
      } else {
        e := None;
      }
    }

    /** `extract_name`. */
    method ExtractName() returns (r: Result<string>)
      requires pos <= |events|
      modifies this
      ensures r.Ok? <==> NameAt(events, old(pos)).Ok?
      ensures r.Ok? ==> (r.value, pos) == NameAt(events, old(pos)).value
      ensures r.Err? ==> r.error == NameAt(events, old(pos)).error && r.panicked
      ensures old(pos) <= pos <= |events|
      ensures objects == old(objects) && name == old(name) && state == old(state) && enums == old(enums)
    {
      ghost var start := pos;
      var e := Next();
      if e.Some? && e.value.Text? {
        return Ok(e.value.text);
      }
      for i := 0 to 2
        invariant pos == if start + 1 + i <= |events| then start + 1 + i else |events|
        invariant forall j :: start <= j < pos ==> !events[j].Text?
        invariant objects == old(objects) && name == old(name) && state == old(state) && enums == old(enums)
      {
        e := Next();
        if e.Some? && e.value.Text? {
          return Ok(e.value.text);
        }
      }
      e := Next();
      if e.None? {
        return Panic(NoneUnwrapPanic);
      }
      return Panic(NamePanic);
    }

    /** `extract_attr_name_required`. */
    method ExtractAttrNameRequired() returns (r: Result<(bool, string)>)
      requires pos <= |events|
      modifies this
      ensures r.Ok? <==> AttrNameAt(events, old(pos)).Ok?
      ensures r.Ok? ==> (r.value.0, r.value.1, pos) == AttrNameAt(events, old(pos)).value
      ensures r.Err? ==> r == Panic(AttrNamePanic)
      ensures old(pos) <= pos <= |events|
      ensures objects == old(objects) && name == old(name) && state == old(state) && enums == old(enums)
    {
      ghost var start := pos;
      var e := Next();
      if e.Some? && e.value.Text? {
        return Ok((false, e.value.text));
      }
      for i := 0 to 2
        invariant pos == if start + 1 + i <= |events| then start + 1 + i else |events|
        invariant forall j :: start <= j < pos ==> !events[j].Text?
        invariant objects == old(objects) && name == old(name) && state == old(state) && enums == old(enums)
      {
        e := Next();
        if e.Some? && e.value.Text? {
          return Ok((true, e.value.text));
        }
      }
      return Panic(AttrNamePanic);
    }

    /** `extract_attribute_options`. */
    method ExtractAttributeOptions() returns (r: Result<seq<string>>)
      requires pos <= |events|
      modifies this
      ensures r.Ok? <==> OptionsFrom(events, old(pos), []).Ok?
      ensures r.Ok? ==> (r.value, pos) == OptionsFrom(events, old(pos), []).value
      ensures r.Err? ==> r.error == OptionsFrom(events, old(pos), []).error && r.panicked
      ensures old(pos) <= pos <= |events|
      ensures objects == old(objects) && name == old(name) && state == old(state) && enums == old(enums)
    {
      ghost var start := pos;
      var options: seq<string> := [];
      while true
        invariant start <= pos <= |events|
        invariant OptionsFrom(events, pos, options) == OptionsFrom(events, start, [])
        invariant objects == old(objects) && name == old(name) && state == old(state) && enums == old(enums)
        decreases |events| - pos
      {
        var e := Next();
        if e.None? {
          return Ok(options);
        }
        var next := e.value;
        if next == Start(Item) {
          var n := ExtractName();
          if n.Err? {
            return Err(n.error, true);
          }
          options := options + [n.value];
        } else if next == End(List(None)) {
          return Ok(options);
        } else if next == Text("[") {
          if options == [] {
            return Panic(NoneUnwrapPanic);
          }
          options := options[..|options| - 1] + [options[|options| - 1] + "[]"];
        }
      }
    }

    /** `process_object_heading`. */
    method ProcessObjectHeading() returns (r: Result<ObjectData>)
      requires pos <= |events|
      modifies this
      ensures r.Ok? <==> ObjectHeadingAt(events, old(pos)).Ok?
      ensures r.Ok? ==> (r.value, pos) == ObjectHeadingAt(events, old(pos)).value
      ensures r.Err? ==> r.error == ObjectHeadingAt(events, old(pos)).error && r.panicked
      ensures old(pos) <= pos <= |events|
      ensures objects == old(objects) && name == old(name) && state == old(state) && enums == old(enums)
    {
      var heading := ExtractName();
      if heading.Err? {
        return Err(heading.error, heading.panicked);
      }
      var term := ExtractObjectTerm(heading.value);
      var n := HeadingName(heading.value);
      if n.Err? {
        return Err(n.error, n.panicked);
      }
      return Ok(NewObject(n.value, term));
    }

    /** `distribute_attribute_options`: the last object is updated in place. */
    method DistributeAttributeOptions(s: string) returns (r: Result<()>)
      requires objects != [] && HasAttributes(Last(objects))
      modifies this
      ensures r == Discard(Distribute(old(objects), s))
      ensures r.Ok? ==> objects == Distribute(old(objects), s).value
      ensures pos == old(pos) && name == old(name) && state == old(state) && enums == old(enums)
    {
      var o := Last(objects);
      if ':' in s {
        var (key, value) := ProcessOption(s).value;
        var a := o.attributes[|o.attributes| - 1];
        var added := AddOptionSpec(a, NewAttrOption(key, value));
        if added.Err? {
          return Panic(AddOptionPanic);
        }
        objects := WithLast(objects, o.(attributes := o.attributes[..|o.attributes| - 1] + [added.value]));
      } else {
        objects := WithLast(objects, o.(attributes := o.attributes + [NewAttribute(s, false)]));
      }
      return Ok(());
    }

    /** The start of a bullet list inside a definition. */
    method ProcessList() returns (r: Result<()>)
      requires PassInv(events, Pass()) && state != OutsideDefinition
      modifies this
      ensures r == Discard(ListEvent(events, old(Pass())))
      ensures r.Ok? ==> Pass() == ListEvent(events, old(Pass())).value
      ensures enums == old(enums)
    {
      if objects == [] {
        return Panic(NoneUnwrapPanic);
      }
      if !HasAttributes(Last(objects)) {
        var _ := Next();
        var a := ExtractAttrNameRequired();
        if a.Err? {
          return Err(a.error, a.panicked);
        }
        var o := Last(objects);
        objects := WithLast(objects, o.(attributes := o.attributes + [NewAttribute(a.value.1, a.value.0)]));
        return Ok(());
      }
      var strs := ExtractAttributeOptions();
      if strs.Err? {
        return Err(strs.error, strs.panicked);
      }
      r := DistributeOptions(strs.value);
    }

    /** The option lines of one list, distributed in order. */
    method DistributeOptions(strs: seq<string>) returns (r: Result<()>)
      requires objects != [] && HasAttributes(Last(objects))
      modifies this
      ensures r == Discard(DistributeAll(old(objects), strs))
      ensures r.Ok? ==> objects == DistributeAll(old(objects), strs).value
      ensures pos == old(pos) && name == old(name) && state == old(state) && enums == old(enums)
    {
      for i := 0 to |strs|
        invariant objects != [] && HasAttributes(Last(objects))
        invariant DistributeAll(objects, strs[i..]) == DistributeAll(old(objects), strs)
        invariant pos == old(pos) && name == old(name) && state == old(state) && enums == old(enums)
      {
        assert strs[i..][1..] == strs[i + 1..];
        r := DistributeAttributeOptions(strs[i]);
        if r.Err? {
          return;
        }
      }
      assert strs[|strs|..] == [];
      return Ok(());
    }

    /** An item inside a definition. */
    method ProcessItem() returns (r: Result<()>)
      requires PassInv(events, Pass()) && state != OutsideDefinition
      modifies this
      ensures r == Discard(ItemEvent(events, old(Pass())))
      ensures r.Ok? ==> Pass() == ItemEvent(events, old(Pass())).value
      ensures enums == old(enums)
    {
      var a := ExtractAttrNameRequired();
      if a.Err? {
        return Err(a.error, a.panicked);
      }
      if objects == [] {
        return Panic(NoneUnwrapPanic);
      }
      var o := Last(objects);
      objects := WithLast(objects, o.(attributes := o.attributes + [NewAttribute(a.value.1, a.value.0)]));
      return Ok(());
    }

    /** A "[" text inside a heading: the next text names the parent. */
    method ProcessParent() returns (r: Result<()>)
      requires PassInv(events, Pass()) && state == InHeading
      modifies this
      ensures r == Discard(ParentEvent(events, old(Pass())))
      ensures r.Ok? ==> Pass() == ParentEvent(events, old(Pass())).value
      ensures enums == old(enums)
    {
      var parent := Next();
      if parent.Some? && parent.value.Text? && parent.value.text != "]" {
        var o := Last(objects);
        objects := WithLast(objects, o.(parent := Some(parent.value.text)));
        return Ok(());
      }
      return Panic(InheritancePanic);
    }

    /** `process_object_event`. */
    method ProcessObjectEvent(e: Event) returns (r: Result<()>)
      requires PassInv(events, Pass())
      modifies this
      ensures r == Discard(ObjectEvent(events, old(Pass()), e))
      ensures r.Ok? ==> Pass() == ObjectEvent(events, old(Pass()), e).value
      ensures enums == old(enums)
    {
      r := Ok(());
      if e == Start(Heading(1)) {
        var n := ExtractName();
        if n.Err? {
          return Err(n.error, n.panicked);
        }
        name := Some(n.value);
      } else if e == Start(Heading(2)) {
        state := OutsideDefinition;
      } else if e == Start(Heading(3)) {
        var o := ProcessObjectHeading();
        if o.Err? {
          return Err(o.error, o.panicked);
        }
        state := InHeading;
        objects := objects + [o.value];
      } else if e == End(Heading(3)) {
        state := InDefinition;
      } else if e == Text("[") {
        if state == InHeading {
          r := ProcessParent();
        }
      } else if e == Start(List(None)) {
        if state != OutsideDefinition {
          r := ProcessList();
        }
      } else if e == Start(Item) {
        if state != OutsideDefinition {
          r := ProcessItem();
        }
      } else if e.Text? {
        if state == InDefinition {
          if objects == [] {
            return Panic(NoneUnwrapPanic);
          }
          var o := Last(objects);
          objects := WithLast(objects, o.(docstring := o.docstring + e.text));
        }
      }
    }

    /** The first loop of `parse_markdown`: every event the iterator yields
     *  goes to `process_object_event`. */
    method ParseObjects() returns (r: Result<()>)
      requires PassInv(events, Pass())
      modifies this
      ensures r == Discard(ObjectsPass(events, old(Pass())))
      ensures r.Ok? ==> Pass() == ObjectsPass(events, old(Pass())).value
      ensures enums == old(enums)
    {
      ghost var start := Pass();
      while true
        invariant PassInv(events, Pass())
        invariant ObjectsPass(events, Pass()) == ObjectsPass(events, start)
        invariant enums == old(enums)
        decreases |events| - pos
      {
        ghost var before := Pass();
        var e := Next();
        if e.None? {
          assert ObjectsPass(events, before) == Ok(before);
          return Ok(());
        }
        assert e.value == events[before.pos] && Pass() == before.(pos := before.pos + 1);
        ghost var step := ObjectEvent(events, Pass(), e.value);
        assert ObjectsPass(events, before) == if step.Err? then Err(step.error, step.panicked) else ObjectsPass(events, step.value);
        r := ProcessObjectEvent(e.value);
        if r.Err? {
          return;
        }
      }
    }

    /** `process_enum_event`. */
    method ProcessEnumEvent(e: Event) returns (r: Result<()>)
      requires pos <= |events|
      modifies this
      ensures r == Discard(EnumEvent(events, EnumPass(old(pos), old(enums)), e))
      ensures r.Ok? ==> EnumPass(pos, enums) == EnumEvent(events, EnumPass(old(pos), old(enums)), e).value
      ensures objects == old(objects) && name == old(name) && state == old(state)
    {
      if e == Start(Heading(3)) {
        var n := ExtractName();
        if n.Err? {
          return Err(n.error, n.panicked);
        }
        enums := enums + [EnumData(n.value, [], "", None)];
      } else if e == Start(FencedCodeBlock) {
        var next := Next();
        if next.None? {
          return Panic(NoneUnwrapPanic);
        }
        if next.value.Text? {
          if enums == [] {
            return Panic(NoneUnwrapPanic);
          }
          var last := enums[|enums| - 1];
          var mappings := ProcessEnumMappings(last.mappings, next.value.text);
          enums := enums[..|enums| - 1] + [last.(mappings := mappings)];
        }
      }
      return Ok(());
    }

    /** The second loop of `parse_markdown`, over a fresh iterator. */
    method ParseEnums() returns (r: Result<()>)
      modifies this
      ensures r == Discard(EnumsPass(events, EnumPass(0, old(enums))))
      ensures r.Ok? ==> EnumPass(pos, enums) == EnumsPass(events, EnumPass(0, old(enums))).value
      ensures objects == old(objects) && name == old(name) && state == old(state)
    {
      pos := 0;
      ghost var start := EnumPass(0, enums);
      while true
        invariant pos <= |events|
        invariant EnumsPass(events, EnumPass(pos, enums)) == EnumsPass(events, start)
        invariant objects == old(objects) && name == old(name) && state == old(state)
        decreases |events| - pos
      {
        var e := Next();
        if e.None? {
          return Ok(());
        }
        r := ProcessEnumEvent(e.value);
        if r.Err? {
          return;
        }
      }
    }
  }
}
