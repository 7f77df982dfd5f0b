/** The JSON-LD 1.1 document header: `@context`, `@id` and `@type`, and the
 *  in-place edits of its context (adding and removing terms, `@import`). */
module JsonLdSchema {
  import opened Wrappers
  import opened IndexMaps
  import JsonValues

  /** `@type`: one type or several. */
  datatype TypeOrVec = Single(name: string) | Multi(names: seq<string>)

  /** A keyword value that is one item or a list of them, like `@container`. */
  datatype OneOrMany<T> = One(item: T) | Many(items: seq<T>)

  /** `@context`: a remote IRI, an inline object, or a list processed in
   *  order. */
  datatype JsonLdContext =
    | Iri(iri: string)
    | Object(obj: SimpleContext)
    | Array(items: seq<JsonLdContext>)

  /** An inline context object. A doubly optional field tells an absent
   *  keyword (`None`) from an explicit `null` (`Some(None)`). */
  datatype SimpleContext = SimpleContext(
    importUrl: Option<string>,
    typeValue: Option<TypeOrVec>,
    version: Option<string>,
    base: Option<Option<string>>,
    vocab: Option<Option<string>>,
    language: Option<Option<string>>,
    direction: Option<string>,
    protected: Option<bool>,
    terms: IndexMap<TermDef>)

  /** A term mapping: an IRI, a detailed definition, or a JSON value that is
   *  `null` in use. */
  datatype TermDef =
    | Simple(iri: string)
    | Detailed(detail: TermDetail)
    | Null(value: JsonValues.Json)

  datatype TermDetail = TermDetail(
    id: Option<string>,
    typeValue: Option<string>,
    container: Option<OneOrMany<string>>,
    context: Option<JsonLdContext>,
    protected: Option<bool>,
    prefix: Option<bool>,
    reverse: Option<string>,
    nest: Option<string>,
    index: Option<string>,
    language: Option<Option<string>>)

  /** `SimpleContext::default()`. */
  const EmptyContext := SimpleContext(None, None, None, None, None, None, None, None, [])

  /** `TermDetail::default()`. */
  const EmptyDetail := TermDetail(None, None, None, None, None, None, None, None, None, None)

  /** `TermDef::null()`: the term that undefines a name. */
  function NullTerm(): (r: TermDef)
    ensures r.Null? && r.value.JNull?
  {
    Null(JsonValues.JNull)
  }

  /** `SimpleContext::ensure_v11`: the version is "1.1" and every other
   *  keyword and term is as it was. */
  function EnsureV11(c: SimpleContext): (r: SimpleContext)
    ensures r.version == Some("1.1")
    ensures r.(version := c.version) == c
  {
    c.(version := Some("1.1"))
  }

  /** The context after `add_term`: an absent context becomes an empty
   *  object first; only an object context takes the term. */
  function WithTerm(ctx: Option<JsonLdContext>, name: string, term: TermDef): (r: Option<JsonLdContext>)
    ensures r.Some?
    ensures r.value.Object? <==> ctx.None? || ctx.value.Object?
    ensures ctx.Some? && !ctx.value.Object? ==> r == ctx
  {
    match ctx.UnwrapOr(Object(EmptyContext))
    case Object(o) => Some(Object(o.(terms := Insert(o.terms, name, term))))
    case other => Some(other)
  }

  /** The terms of a context that is an object; nothing for any other. */
  function TermsOf(ctx: Option<JsonLdContext>): IndexMap<TermDef>
  {
    if ctx.Some? && ctx.value.Object? then ctx.value.obj.terms else []
  }

  /** After `add_term` on an absent or object context the name reads the new
   *  term and every other name reads as before; an existing name keeps its
   *  place and a new one comes last; no other keyword changes. */
  lemma WithTermContents(ctx: Option<JsonLdContext>, name: string, term: TermDef, x: string)
    requires ctx.None? || ctx.value.Object?
    ensures var r := WithTerm(ctx, name, term).value;
      && Get(r.obj.terms, x) == (if x == name then Some(term) else Get(TermsOf(ctx), x))
      && Keys(r.obj.terms) == (if name in Keys(TermsOf(ctx)) then Keys(TermsOf(ctx)) else Keys(TermsOf(ctx)) + [name])
      && r.obj.(terms := TermsOf(ctx)) == (if ctx.None? then EmptyContext else ctx.value.obj)
  {
    InsertGet(TermsOf(ctx), name, term, x);
    InsertKeys(TermsOf(ctx), name, term);
  }

  /** Adding a term to a valid object context keeps its names distinct. */
  lemma WithTermValid(ctx: Option<JsonLdContext>, name: string, term: TermDef)
    requires ctx.None? || ctx.value.Object?
    requires Valid(TermsOf(ctx))
    ensures Valid(WithTerm(ctx, name, term).value.obj.terms)
  {
    var ks := Keys(TermsOf(ctx));
    InsertKeys(TermsOf(ctx), name, term);
    if name !in ks {
      forall i, j | 0 <= i < j < |ks| + 1 ensures (ks + [name])[i] != (ks + [name])[j] {
        if j == |ks| {
          assert (ks + [name])[i] == ks[i];
        }
      }
    }
  }

  /** The context after `remove_term`: an object context loses the name, any
   *  other is left alone. */
  function WithoutTerm(ctx: Option<JsonLdContext>, name: string): (r: Option<JsonLdContext>)
    ensures r.None? <==> ctx.None?
    ensures ctx.Some? && !ctx.value.Object? ==> r == ctx
    ensures ctx.Some? && ctx.value.Object? ==> r.value.Object? && r.value.obj.(terms := ctx.value.obj.terms) == ctx.value.obj
  {
    match ctx
    case Some(Object(o)) => Some(Object(o.(terms := Remove(o.terms, name))))
    case _ => ctx
  }

  /** `remove_term` on a valid object context: the name is gone, every other
   *  name reads as before, and when the name was the `i`-th term exactly
   *  that entry is cut out, the others keeping their order. */
  lemma WithoutTermContents(ctx: Option<JsonLdContext>, name: string, x: string)
    requires ctx.Some? && ctx.value.Object? && Valid(ctx.value.obj.terms)
    ensures var terms := WithoutTerm(ctx, name).value.obj.terms;
      && Valid(terms)
      && Get(terms, x) == (if x == name then None else Get(TermsOf(ctx), x))
      && (name !in Keys(TermsOf(ctx)) ==> terms == TermsOf(ctx))
      && (forall i :: 0 <= i < |TermsOf(ctx)| && TermsOf(ctx)[i].0 == name ==>
            terms == TermsOf(ctx)[..i] + TermsOf(ctx)[i + 1..])
  {
    var m := ctx.value.obj.terms;
    RemoveGet(m, name, x);
    if name !in Keys(m) {
      RemoveAbsent(m, name);
    }
    forall i | 0 <= i < |m| && m[i].0 == name ensures Remove(m, name) == m[..i] + m[i + 1..] {
      RemoveAt(m, i);
    }
  }

  /** An inline context holding only an `@import`. */
  function ImportOnly(url: string): (r: JsonLdContext)
    ensures r.Object? && r.obj.importUrl == Some(url) && r.obj.(importUrl := None) == EmptyContext
  {
    Object(EmptyContext.(importUrl := Some(url)))
  }

  /** The context after `add_import`. An absent context becomes an object
   *  with the import; an object without an import gains it; an object that
   *  has one, or an IRI, becomes a list of itself and a new import object;
   *  a list gets a new import object appended. */
  function WithImport(ctx: Option<JsonLdContext>, url: string): JsonLdContext
  {
    match ctx
    case None => ImportOnly(url)
    case Some(Object(o)) =>
      if o.importUrl.None? then Object(o.(importUrl := Some(url)))
      else Array([Object(o), ImportOnly(url)])
    case Some(Iri(i)) => Array([Iri(i), ImportOnly(url)])
    case Some(Array(a)) => Array(a + [ImportOnly(url)])
  }

  /** The non-list contexts of `c`, left to right through nested lists. */
  function Leaves(c: JsonLdContext): (r: seq<JsonLdContext>)
    ensures forall i :: 0 <= i < |r| ==> !r[i].Array?
  {
    match c
    case Array(a) => LeavesIn(a)
    case _ => [c]
  }

  function LeavesIn(a: seq<JsonLdContext>): (r: seq<JsonLdContext>)
    ensures forall i :: 0 <= i < |r| ==> !r[i].Array?
  {
    if a == [] then [] else LeavesIn(a[..|a| - 1]) + Leaves(a[|a| - 1])
  }

  function LeavesOf(ctx: Option<JsonLdContext>): seq<JsonLdContext>
  {
    if ctx.None? then [] else Leaves(ctx.value)
  }

  lemma LeavesInSnoc(a: seq<JsonLdContext>, c: JsonLdContext)
    ensures LeavesIn(a + [c]) == LeavesIn(a) + Leaves(c)
  {
    assert (a + [c])[..|a|] == a;
  }

  lemma LeavesInPair(a: JsonLdContext, b: JsonLdContext)
    ensures LeavesIn([a, b]) == Leaves(a) + Leaves(b)
  {
    LeavesInSnoc([a], b);
    LeavesInSnoc([], a);
    assert [a] + [b] == [a, b];
  }

  /** `add_import` keeps every context it was given: either the import lands
   *  in the one object that had none, or all old contexts stay, in order,
   *  followed by a new object holding only the import. */
  lemma {:induction false} WithImportLeaves(ctx: Option<JsonLdContext>, url: string)
    ensures var before := LeavesOf(ctx);
      var after := Leaves(WithImport(ctx, url));
      || after == before + [ImportOnly(url)]
      || (&& |before| == 1 && before[0].Object? && before[0].obj.importUrl.None?
          && after == [Object(before[0].obj.(importUrl := Some(url)))])
  {
    match ctx
    case None =>
    case Some(Object(o)) =>
      if o.importUrl.Some? {
        LeavesInPair(Object(o), ImportOnly(url));
      }
    case Some(Iri(i)) =>
      LeavesInPair(Iri(i), ImportOnly(url));
    case Some(Array(a)) =>
      LeavesInSnoc(a, ImportOnly(url));
  }

  /** The `@import`s of a sequence of contexts, in order. */
  function Imports(cs: seq<JsonLdContext>): (r: seq<string>)
  {
    if cs == [] then []
    else
      var c := cs[|cs| - 1];
      Imports(cs[..|cs| - 1]) + (if c.Object? && c.obj.importUrl.Some? then [c.obj.importUrl.value] else [])
  }

  /** The term definitions of a sequence of contexts, in order. */
  function AllTerms(cs: seq<JsonLdContext>): (r: IndexMap<TermDef>)
  {
    if cs == [] then []
    else
      var c := cs[|cs| - 1];
      AllTerms(cs[..|cs| - 1]) + (if c.Object? then c.obj.terms else [])
  }

  /** The remote IRIs of a sequence of contexts, in order. */
  function Iris(cs: seq<JsonLdContext>): (r: seq<string>)
  {
    if cs == [] then []
    else
      var c := cs[|cs| - 1];
      Iris(cs[..|cs| - 1]) + (if c.Iri? then [c.iri] else [])
  }

  lemma ImportsSnoc(cs: seq<JsonLdContext>, url: string)
    ensures Imports(cs + [ImportOnly(url)]) == Imports(cs) + [url]
    ensures AllTerms(cs + [ImportOnly(url)]) == AllTerms(cs)
    ensures Iris(cs + [ImportOnly(url)]) == Iris(cs)
  {
    assert (cs + [ImportOnly(url)])[..|cs|] == cs;
  }

  /** `add_import` adds the import after every import already there, and
   *  drops no term definition and no remote context. */
  lemma WithImportContents(ctx: Option<JsonLdContext>, url: string)
    ensures Imports(Leaves(WithImport(ctx, url))) == Imports(LeavesOf(ctx)) + [url]
    ensures AllTerms(Leaves(WithImport(ctx, url))) == AllTerms(LeavesOf(ctx))
    ensures Iris(Leaves(WithImport(ctx, url))) == Iris(LeavesOf(ctx))
  {
    WithImportLeaves(ctx, url);
    var before := LeavesOf(ctx);
    var after := Leaves(WithImport(ctx, url));
    if after == before + [ImportOnly(url)] {
      ImportsSnoc(before, url);
    } else {
      assert before == [before[0]] && before[0].obj.importUrl.None?;
      assert Imports(after) == [url];
      assert Imports(before) == [];
      assert AllTerms([]) == [] && Iris([]) == [];
    }
  }

  /** `JsonLdHeader`: a JSON-LD document envelope whose context is edited in
   *  place. */
  class JsonLdHeader {
    var context: Option<JsonLdContext>
    var id: Option<string>
    var typeValue: Option<TypeOrVec>

    /** `JsonLdHeader::default()`. */
    constructor ()
      ensures context.None? && id.None? && typeValue.None?
    {
      context := None;
      id := None;
      typeValue := None;
    }

    /** `add_term`: insert or overwrite a term of the inline context,
     *  creating an empty one when there is no context at all. */
    method AddTerm(name: string, term: TermDef)
      modifies this
      ensures context == WithTerm(old(context), name, term)
      ensures id == old(id) && typeValue == old(typeValue)
    {
      if context.None? {
        context := Some(Object(EmptyContext));
      }
      match context.value
      case Object(o) =>
        context := Some(Object(o.(terms := Insert(o.terms, name, term))));
      case _ =>
    }

    /** `update_term`: the same edit as `add_term`. */
    method UpdateTerm(name: string, term: TermDef)
      modifies this
      ensures context == WithTerm(old(context), name, term)
      ensures id == old(id) && typeValue == old(typeValue)
    {
      AddTerm(name, term);
    }

    /** `remove_term`: true exactly when the context is an object that has
     *  the term, which is then taken out. */
    method RemoveTerm(name: string) returns (removed: bool)
      modifies this
      ensures removed <==> old(context).Some? && old(context).value.Object? && name in Keys(old(context).value.obj.terms)
      ensures context == WithoutTerm(old(context), name)
      ensures id == old(id) && typeValue == old(typeValue)
    {
      match context
      case Some(Object(o)) =>
        removed := Get(o.terms, name).Some?;
        context := Some(Object(o.(terms := Remove(o.terms, name))));
      case _ =>
        removed := false;
    }

    /** `add_import`: take the context out and put back the one with the
     *  import added. */
    method AddImport(url: string)
      modifies this
      ensures context == Some(WithImport(old(context), url))
      ensures id == old(id) && typeValue == old(typeValue)
    {
      var taken := context;
      context := None;
      match taken
      case None =>
        context := Some(ImportOnly(url));
      case Some(Object(o)) =>
        if o.importUrl.None? {
          context := Some(Object(o.(importUrl := Some(url))));
        } else {
          context := Some(Array([Object(o), ImportOnly(url)]));
        }
      case Some(Iri(i)) =>
        context := Some(Array([Iri(i), ImportOnly(url)]));
      case Some(Array(a)) =>
        context := Some(Array(a + [ImportOnly(url)]));
    }
  }
}
