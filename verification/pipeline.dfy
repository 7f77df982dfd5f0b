/** The generation pipeline's rules: how a `per-spec` flag becomes a merge
 *  state, how paths are rooted and named, which output requests are
 *  refused, and how several documents are folded into one model. */
module Pipeline {
  import opened Wrappers
  import Text
  import opened Objects
  import opened Models
  import opened DataModels

  // ---------------------------------------------------------------------
  // Merge state

  /** `MergeState`. */
  datatype MergeState = Merge | NoMerge

  /** `From<bool> for MergeState`: the `per-spec` flag set means every
   *  document is rendered on its own. */
  function MergeStateOf(perSpec: bool): (s: MergeState)
    ensures s.NoMerge? <==> perSpec
    ensures s.Merge? <==> !perSpec
  {
    if perSpec then NoMerge else Merge
  }

  // ---------------------------------------------------------------------
  // Paths, as strings with '/' as the separator

  predicate Absolute(p: string)
  {
    Text.StartsWith(p, "/")
  }

  /** `Path::join`: an absolute second path replaces the first; otherwise a
   *  '/' goes between them unless the first is empty or already ends in
   *  one. A relative path is kept whole at the end, after the base. */
  function PathJoin(base: string, p: string): (r: string)
    ensures Absolute(p) ==> r == p
    ensures !Absolute(p) ==> Text.StartsWith(r, base) && Text.EndsWith(r, p) && |r| <= |base| + 1 + |p|
  {
    if Absolute(p) then p
    else if base == [] || base[|base| - 1] == '/' then base + p
    else base + "/" + p
  }

  /** `Path::file_name` on the last component: none for an empty path, a
   *  trailing separator, `.` or `..`. */
  function FileName(p: string): (r: Option<string>)
    ensures r.Some? ==> r.value != [] && '/' !in r.value && Text.EndsWith(p, r.value)
    ensures r.Some? ==> |r.value| == |p| || p[|p| - |r.value| - 1] == '/'
  {
    var last := Text.LastPiece(p, '/');
    if last == [] || last == "." || last == ".." then None else Some(last)
  }

  /** Everything up to and including the last separator. */
  function Dir(p: string): (d: string)
    ensures |d| <= |p| && d == p[..|d|]
  {
    p[..|p| - |Text.LastPiece(p, '/')|]
  }

  /** `Path::parent` of a path with a file name: the directory part without
   *  its trailing separators, the root kept. */
  function Parent(p: string): string
  {
    var d := Dir(p);
    if d == [] then []
    else
      var t := Text.TrimEndMatches(d, "/");
      if t == [] then "/" else t
  }

  const UnwrapNonePanic: string := "called `Option::unwrap()` on a `None` value"

  /** `get_file_name`: the file name up to its first '.'; a path without a
   *  file name panics. */
  function GetFileName(p: string): (r: Result<string>)
    ensures r.Err? <==> FileName(p).None?
    ensures r.Err? ==> r == Panic(UnwrapNonePanic)
    ensures r.Ok? ==>
      var f := FileName(p).value;
      '.' !in r.value && Text.StartsWith(f, r.value) && (r.value == f || f[|r.value|] == '.')
  {
    match FileName(p)
    case None => Panic(UnwrapNonePanic)
    case Some(f) =>
      var stem := Text.Split(f, '.')[0];
      StemOfSplit(f);
      Ok(stem)
  }

  lemma StemOfSplit(f: string)
    ensures var stem := Text.Split(f, '.')[0];
      '.' !in stem && Text.StartsWith(f, stem) && (stem == f || f[|stem|] == '.')
  {
    Text.SplitPieces(f, '.', 0);
    if '.' in f {
      var i := Text.IndexOf(f, '.');
      assert Text.Split(f, '.')[0] == f[..i];
    }
  }

  /** `replace_wildcard_fname`: every '*' of the file name replaced by
   *  `name`, under the same parent; a path without a file name panics. */
  function ReplaceWildcardFileName(p: string, name: string): (r: Result<string>)
    ensures r.Err? <==> FileName(p).None?
    ensures r.Err? ==> r == Panic(UnwrapNonePanic)
  {
    match FileName(p)
    case None => Panic(UnwrapNonePanic)
    case Some(f) => Ok(PathJoin(Parent(p), Text.Replace(f, '*', name)))
  }

  /** A name without separators replaces the wildcard in place: the
   *  directory part is kept as written unless it ends in a doubled
   *  separator. */
  lemma ReplaceWildcardInPlace(p: string, name: string)
    requires FileName(p).Some? && '/' !in name
    requires !Text.EndsWith(Dir(p), "//")
    ensures ReplaceWildcardFileName(p, name) == Ok(Dir(p) + Text.Replace(FileName(p).value, '*', name))
  {
    var f := FileName(p).value;
    var n := Text.Replace(f, '*', name);
    ReplaceKeepsSlashFree(f, name);
    RelativeName(n);
    ParentJoin(p, n);
  }

  /** A string without separators is a relative path. */
  lemma RelativeName(n: string)
    requires '/' !in n
    ensures !Absolute(n)
  {
    if n != [] {
      assert n[..1][0] == n[0] && n[0] in n;
    }
  }

  /** Joining a relative name to the parent of a path with a file name is
   *  putting it after the path's directory part, when that does not end in
   *  a doubled separator. */
  lemma ParentJoin(p: string, n: string)
    requires FileName(p).Some? && !Absolute(n)
    requires !Text.EndsWith(Dir(p), "//")
    ensures PathJoin(Parent(p), n) == Dir(p) + n
  {
    var f := FileName(p).value;
    var d := Dir(p);
    if d != [] {
      assert d[|d| - 1] == '/' by {
        assert p[|p| - |f| - 1] == '/';
        assert |d| == |p| - |f|;
      }
      if |d| >= 2 {
        assert d[|d| - 2] != '/';
        TrimOneSlash(d);
        assert d == d[..|d| - 1] + "/";
      } else {
        assert d == "/";
        TrimOneSlash(d);
      }
    }
  }

  /** A single trailing separator is all `trim_end_matches('/')` removes. */
  lemma TrimOneSlash(d: string)
    requires d != [] && d[|d| - 1] == '/'
    requires |d| < 2 || d[|d| - 2] != '/'
    ensures Text.TrimEndMatches(d, "/") == d[..|d| - 1]
  {
    assert Text.EndsWith(d, "/") by {
      assert d[|d| - 1..] == "/";
    }
    var e := d[..|d| - 1];
    assert !Text.EndsWith(e, "/") by {
      if |e| >= 1 {
        assert e[|e| - 1..][0] == e[|e| - 1];
      }
    }
    assert Text.TrimEndMatches(e, "/") == e;
  }

  lemma {:induction false} ReplaceKeepsSlashFree(f: string, name: string)
    requires '/' !in f && '/' !in name
    ensures '/' !in Text.Replace(f, '*', name)
  {
    if f != [] {
      assert f[1..] == f[1..];
      assert forall c :: c in f[1..] ==> c in f;
      ReplaceKeepsSlashFree(f[1..], name);
    }
  }

  // ---------------------------------------------------------------------
  // Wildcard output names

  predicate AllAlphanumeric(s: string)
  {
    forall j :: 0 <= j < |s| ==> Text.IsAlphanumeric(s[j])
  }

  /** What the pattern `^.+/\*\.[a-zA-Z0-9]+$` accepts: at least one
   *  character other than a line feed, then a separator, a star and a dot,
   *  then one or more ASCII letters or digits up to the end. */
  predicate WildcardShape(p: string)
  {
    exists k :: 1 <= k && k + 3 < |p| && WildcardAt(p, k)
  }

  predicate WildcardAt(p: string, k: nat)
    requires k + 3 < |p|
  {
    p[k..k + 3] == "/*." && '\n' !in p[..k] && AllAlphanumeric(p[k + 3..])
  }

  /** `has_wildcard_fname`: the extension after the last '.' is a run of
   *  ASCII letters and digits, a separator and a star come right before
   *  that '.', and something without a line feed comes before them. */
  function HasWildcardFileName(p: string): bool
  {
    var ext := Text.LastPiece(p, '.');
    var k := |p| - |ext| - 3;
    ext != [] && AllAlphanumeric(ext) && |p| - |ext| >= 4
    && p[k..k + 3] == "/*." && '\n' !in p[..k]
  }

  /** The check accepts exactly the paths the pattern matches. */
  lemma HasWildcardShape(p: string)
    ensures HasWildcardFileName(p) <==> WildcardShape(p)
  {
    if HasWildcardFileName(p) {
      WildcardShapeOfCheck(p);
    }
    if WildcardShape(p) {
      var k :| 1 <= k && k + 3 < |p| && WildcardAt(p, k);
      CheckOfWildcardAt(p, k);
    }
  }

  lemma WildcardShapeOfCheck(p: string)
    requires HasWildcardFileName(p)
    ensures WildcardShape(p)
  {
    var ext := Text.LastPiece(p, '.');
    var k := |p| - |ext| - 3;
    assert p[k + 3..] == ext;
    assert WildcardAt(p, k);
  }

  lemma CheckOfWildcardAt(p: string, k: nat)
    requires 1 <= k && k + 3 < |p| && WildcardAt(p, k)
    ensures HasWildcardFileName(p)
  {
    var ext := p[k + 3..];
    assert '.' !in ext by {
      forall j | 0 <= j < |ext| ensures ext[j] != '.' {
        assert Text.IsAlphanumeric(ext[j]);
      }
    }
    assert p[k + 2] == '.' by {
      assert p[k..k + 3][2] == '.';
    }
    assert p == p[..k + 2] + ['.'] + ext;
    Text.LastPieceOfPath(p[..k + 2], '.', ext);
    assert Text.LastPiece(p, '.') == ext;
  }

  /** The two paths the source's own tests name. */
  lemma WildcardExamples()
    ensures HasWildcardFileName("path/to/*.json")
    ensures !HasWildcardFileName("path/to/file.json")
  {
    var yes := "path/to/*.json";
    assert yes[7..10] == "/*." && yes[10..] == "json";
    assert '\n' !in yes[..7];
    CheckOfWildcardAt(yes, 7);
    NoWildcardExample();
  }

  lemma NoWildcardExample()
    ensures !HasWildcardFileName("path/to/file.json")
  {
    var no := "path/to/file.json";
    ExampleExtension();
    assert |no| - |"json"| - 3 == 10;
    assert no[10..13][0] == 'l';
  }

  lemma ExampleExtension()
    ensures Text.LastPiece("path/to/file.json", '.') == "json"
  {
    assert "path/to/file.json" == "path/to/file" + ['.'] + "json";
    Text.LastPieceOfPath("path/to/file", '.', "json");
  }

  /** The position of the star in a wildcard output name: right before
   *  the last '.'. */
  function StarIndex(out: string): int
  {
    |out| - |Text.LastPiece(out, '.')| - 2
  }

  /** The output for a document is the wildcard output name with its star
   *  replaced by the document's stem. */
  lemma WildcardOutput(out: string, stem: string)
    requires HasWildcardFileName(out) && '/' !in stem
    requires !Text.EndsWith(Dir(out), "//")
    ensures 1 < StarIndex(out) < |out| && out[StarIndex(out)] == '*'
    ensures ReplaceWildcardFileName(out, stem) == Ok(out[..StarIndex(out)] + stem + out[StarIndex(out) + 1..])
  {
    var j := StarIndex(out);
    WildcardParts(out);
    StarFileName(out, j, stem);
  }

  lemma StarFileName(out: string, j: nat, stem: string)
    requires 1 < j < |out| - 2 && out[j - 1] == '/' && out[j] == '*'
    requires '/' !in out[j..] && '*' !in out[j + 1..] && '/' !in stem
    requires !Text.EndsWith(out[..j], "//")
    ensures ReplaceWildcardFileName(out, stem) == Ok(out[..j] + stem + out[j + 1..])
  {
    StarPath(out, j);
    ReplaceWildcardInPlace(out, stem);
    StarReplaced(out, j, stem);
  }

  /** The file name of a path whose last separator sits just before `j`. */
  lemma StarPath(out: string, j: nat)
    requires 1 < j < |out| - 2 && out[j - 1] == '/' && out[j] == '*'
    requires '/' !in out[j..]
    ensures FileName(out) == Some(out[j..]) && Dir(out) == out[..j]
  {
    var f := out[j..];
    assert f[0] == '*';
    assert f !in {".", ".."};
    WildcardFileName(out, j - 1);
  }

  lemma StarReplaced(out: string, j: nat, stem: string)
    requires 1 < j < |out| - 2 && out[j] == '*' && '*' !in out[j + 1..]
    ensures out[..j] + Text.Replace(out[j..], '*', stem) == out[..j] + stem + out[j + 1..]
  {
    var f := out[j..];
    assert f[1..] == out[j + 1..];
    ReplaceStar(f, stem);
  }

  /** Around the star of a wildcard output name: a separator before it, and
   *  no separator from it on and no other star after it. */
  lemma WildcardParts(out: string)
    requires HasWildcardFileName(out)
    ensures var j := StarIndex(out);
      1 < j < |out| - 2 && out[j - 1] == '/' && out[j] == '*'
      && '/' !in out[j..] && '*' !in out[j + 1..]
  {
    var ext := Text.LastPiece(out, '.');
    var k := |out| - |ext| - 3;
    assert out[k..k + 3] == "/*.";
    assert out[k..k + 3][0] == out[k] && out[k..k + 3][1] == out[k + 1] && out[k..k + 3][2] == out[k + 2];
    assert out[k + 3..] == ext;
    forall i | k + 1 <= i < |out| ensures out[i] != '/' && (i > k + 1 ==> out[i] != '*') {
      if i >= k + 3 {
        assert out[i] == ext[i - k - 3];
        assert Text.IsAlphanumeric(ext[i - k - 3]);
      }
    }
  }

  /** With a separator at `k` and none after it, the file name is what
   *  follows `k` and the directory part ends at `k`. */
  lemma WildcardFileName(out: string, k: nat)
    requires k + 2 < |out| && out[k] == '/' && '/' !in out[k + 1..]
    requires out[k + 1..] !in {".", ".."}
    ensures FileName(out) == Some(out[k + 1..]) && Dir(out) == out[..k + 1]
  {
    assert out == out[..k] + ['/'] + out[k + 1..];
    Text.LastPieceOfPath(out[..k], '/', out[k + 1..]);
  }

  /** Replacing a leading star, with no other star after it. */
  lemma ReplaceStar(f: string, stem: string)
    requires f != [] && f[0] == '*' && '*' !in f[1..]
    ensures Text.Replace(f, '*', stem) == stem + f[1..]
  {
  }

  // ---------------------------------------------------------------------
  // Rooting a generation template

  /** `GenSpecs`: one output request. */
  datatype GenSpecs = GenSpecs(
    description: Option<string>,
    out: string,
    root: Option<string>,
    perSpec: Option<bool>,
    config: StringMap)

  /** `Meta`. */
  datatype Meta = Meta(name: Option<string>, description: Option<string>, paths: seq<string>)

  /** Every path joined under `root`. */
  function RootedPaths(root: string, paths: seq<string>): (r: seq<string>)
    ensures |r| == |paths|
  {
    seq(|paths|, i requires 0 <= i < |paths| => PathJoin(root, paths[i]))
  }

  /** Every request with its output joined under `root`. */
  function RootedSpecs(root: string, generate: seq<(string, GenSpecs)>): (r: seq<(string, GenSpecs)>)
    ensures |r| == |generate|
  {
    seq(|generate|, i requires 0 <= i < |generate| =>
      (generate[i].0, generate[i].1.(out := PathJoin(root, generate[i].1.out))))
  }

  /** Rooting a relative path keeps its file name, so the names derived
   *  from a document or an output do not depend on the root. */
  lemma {:induction false} RootedFileName(root: string, p: string)
    requires !Absolute(p) && p != []
    ensures FileName(PathJoin(root, p)) == FileName(p)
    ensures Text.StartsWith(PathJoin(root, p), root)
  {
    if root == [] || root[|root| - 1] == '/' {
      LastPieceAppend(root, p);
    } else {
      assert root + "/" + p == (root + "/") + p;
      LastPieceAppend(root + "/", p);
    }
  }

  /** The last piece of `a + b` is that of `b` when `b` holds a separator
   *  or `a` ends in one. */
  lemma {:induction false} LastPieceAppend(a: string, b: string)
    requires a == [] || a[|a| - 1] == '/' || '/' in b
    ensures Text.LastPiece(a + b, '/') == Text.LastPiece(b, '/')
    decreases |b|
  {
    if b == [] {
      assert a + b == a;
    } else if b[|b| - 1] != '/' {
      var init := b[..|b| - 1];
      assert (a + b)[..|a + b| - 1] == a + init;
      assert '/' in b ==> '/' in init by {
        if '/' in b {
          var j :| 0 <= j < |b| && b[j] == '/';
          assert init[j] == '/';
        }
      }
      LastPieceAppend(a, init);
    }
  }

  /** `GenTemplate`, whose paths and outputs are rewritten in place. */
  class GenTemplate {
    var meta: Meta
    var generate: seq<(string, GenSpecs)>

    constructor (meta: Meta, generate: seq<(string, GenSpecs)>)
      ensures this.meta == meta && this.generate == generate
    {
      this.meta := meta;
      this.generate := generate;
    }

    /** `GenTemplate::prepend_root`: every request's output, then every
     *  document path, joined under `root`. */
    method PrependRoot(root: string)
      modifies this
      ensures generate == RootedSpecs(root, old(generate))
      ensures meta == old(meta).(paths := RootedPaths(root, old(meta.paths)))
    {
      for i := 0 to |generate|
        invariant |generate| == |old(generate)| && meta == old(meta)
        invariant forall k :: 0 <= k < i ==> generate[k] == RootedSpecs(root, old(generate))[k]
        invariant forall k :: i <= k < |generate| ==> generate[k] == old(generate)[k]
      {
        var (name, specs) := generate[i];
        generate := generate[i := (name, specs.(out := PathJoin(root, specs.out)))];
      }
      meta := meta.(paths := RootedPaths(root, meta.paths));
    }
  }

  /** The source's own example: "model.md" and "schema.json" under
   *  "tests/data". */
  lemma PrependRootExample()
    ensures RootedPaths("tests/data", ["model.md"]) == ["tests/data/model.md"]
    ensures PathJoin("tests/data", "schema.json") == "tests/data/schema.json"
  {
    RelativeName("model.md");
    RelativeName("schema.json");
    assert "tests/data" + "/" + "model.md" == "tests/data/model.md";
    assert "tests/data" + "/" + "schema.json" == "tests/data/schema.json";
  }

  // ---------------------------------------------------------------------
  // MkDocs navigation default

  /** The configuration the MkDocs template is rendered with: in merge
   *  state a missing "nav" entry is set to "false". */
  function MkDocsConfig(state: MergeState, config: StringMap): StringMap
  {
    if state.Merge? && Lookup(config, "nav").None? then config + [("nav", "false")] else config
  }

  /** Only "nav" can change, only in merge state and only when it was
   *  missing; every other key keeps its value. */
  lemma MkDocsNav(state: MergeState, config: StringMap)
    ensures Lookup(MkDocsConfig(state, config), "nav") ==
      (if state.Merge? && Lookup(config, "nav").None? then Some("false") else Lookup(config, "nav"))
    ensures forall k :: k != "nav" ==> Lookup(MkDocsConfig(state, config), k) == Lookup(config, k)
  {
    forall k ensures Lookup(config + [("nav", "false")], k) ==
      (if Lookup(config, k).Some? then Lookup(config, k) else if k == "nav" then Some("false") else None)
    {
      LookupSnoc(config, ("nav", "false"), k);
    }
  }

  lemma {:induction false} LookupSnoc(m: StringMap, e: (string, string), k: string)
    ensures Lookup(m + [e], k) ==
      (if Lookup(m, k).Some? then Lookup(m, k) else if k == e.0 then Some(e.1) else None)
  {
    if m == [] {
      assert [e][1..] == [];
    } else {
      assert (m + [e])[1..] == m[1..] + [e];
      LookupSnoc(m[1..], e, k);
    }
  }

  // ---------------------------------------------------------------------
  // Folding documents

  const ParseErrorPrefix: string := "Error parsing markdown content: "

  /** What `build_models` yields when the i-th path parsed to `docs[i]`:
   *  no path at all panics; a first document that fails is reported with a
   *  prefix; every later one is merged into the first in list order, and
   *  the first failure, parse error or merge panic, stops the fold. */
  function Built(docs: seq<Result<Model>>): Result<Model>
  {
    if docs == [] then Panic(UnwrapNonePanic)
    else match docs[0]
      case Err(e, panicked) => if panicked then docs[0] else Err(ParseErrorPrefix + e)
      case Ok(first) => MergeRest(first, docs[1..])
  }

  function MergeRest(acc: Model, rest: seq<Result<Model>>): Result<Model>
    decreases |rest|
  {
    if rest == [] then Ok(acc)
    else match rest[0]
      case Err(_, _) => rest[0]
      case Ok(m) =>
        match MergeSpec(acc, m)
        case Err(_, _) => MergeSpec(acc, m)
        case Ok(merged) => MergeRest(merged, rest[1..])
  }

  /** The objects of all documents, in list order. */
  function AllObjects(ms: seq<Model>): seq<ObjectData>
  {
    if ms == [] then [] else ms[0].objects + AllObjects(ms[1..])
  }

  /** The enumerations of all documents, in list order. */
  function AllEnums(ms: seq<Model>): seq<EnumData>
  {
    if ms == [] then [] else ms[0].enums + AllEnums(ms[1..])
  }

  function Values(docs: seq<Result<Model>>): seq<Model>
    requires forall i :: 0 <= i < |docs| ==> docs[i].Ok?
  {
    seq(|docs|, i requires 0 <= i < |docs| => docs[i].value)
  }

  /** A single document comes back unmerged. */
  lemma BuiltSingle(m: Model)
    ensures Built([Ok(m)]) == Ok(m)
  {
    assert [Ok(m)][1..] == [];
  }

  /** A fold that succeeds parsed every document and holds, in list order,
   *  all their objects and enumerations under the first one's name and
   *  configuration. */
  lemma BuiltContents(docs: seq<Result<Model>>)
    requires Built(docs).Ok?
    ensures docs != [] && forall i :: 0 <= i < |docs| ==> docs[i].Ok?
    ensures Built(docs).value.objects == AllObjects(Values(docs))
    ensures Built(docs).value.enums == AllEnums(Values(docs))
    ensures Built(docs).value.name == docs[0].value.name
    ensures Built(docs).value.config == docs[0].value.config
  {
    MergeRestContents(docs[0].value, docs[1..]);
    assert Values(docs) == [docs[0].value] + Values(docs[1..]);
  }

  lemma {:induction false} MergeRestContents(acc: Model, rest: seq<Result<Model>>)
    requires MergeRest(acc, rest).Ok?
    ensures forall i :: 0 <= i < |rest| ==> rest[i].Ok?
    ensures MergeRest(acc, rest).value.objects == acc.objects + AllObjects(Values(rest))
    ensures MergeRest(acc, rest).value.enums == acc.enums + AllEnums(Values(rest))
    ensures MergeRest(acc, rest).value.name == acc.name
    ensures MergeRest(acc, rest).value.config == acc.config
    decreases |rest|
  {
    if rest == [] {
      assert acc.objects + [] == acc.objects && acc.enums + [] == acc.enums;
    } else {
      var m := rest[0].value;
      var merged := MergeSpec(acc, m).value;
      MergeRestContents(merged, rest[1..]);
      assert Values(rest) == [m] + Values(rest[1..]);
      assert forall i :: 1 <= i < |rest| ==> rest[i] == rest[1..][i - 1];
    }
  }

  /** A first document that fails to parse stops the fold with the prefixed
   *  message. */
  lemma BuiltFirstError(docs: seq<Result<Model>>)
    requires docs != [] && docs[0].Err? && !docs[0].panicked
    ensures Built(docs) == Err(ParseErrorPrefix + docs[0].error)
  {
  }

  /** `build_models`: the first document becomes the model, and every later
   *  one is merged into it in place, in list order. */
  method BuildModels(docs: seq<Result<Model>>) returns (r: Result<DataModel>)
    ensures r.Ok? <==> Built(docs).Ok?
    ensures r.Ok? ==> fresh(r.value) && r.value.Data() == Built(docs).value
    ensures r.Err? ==> r.error == Built(docs).error && r.panicked == Built(docs).panicked
  {
    if docs == [] {
      return Panic(UnwrapNonePanic);
    }
    if docs[0].Err? {
      if docs[0].panicked {
        return Err(docs[0].error, true);
      }
      return Err(ParseErrorPrefix + docs[0].error);
    }
    var first := docs[0].value;
    var model := new DataModel(first.name, first.config);
    model.objects := first.objects;
    model.enums := first.enums;
    if |docs| == 1 {
      return Ok(model);
    }
    for i := 1 to |docs|
      invariant MergeRest(model.Data(), docs[i..]) == MergeRest(first, docs[1..])
    {
      assert docs[i..][0] == docs[i] && docs[i..][1..] == docs[i + 1..];
      if docs[i].Err? {
        return Err(docs[i].error, docs[i].panicked);
      }
      var merged := model.Merge(docs[i].value);
      if merged.Err? {
        return Err(merged.error, merged.panicked);
      }
    }
    assert docs[|docs|..] == [];
    return Ok(model);
  }

  // ---------------------------------------------------------------------
  // Which output requests are refused

  const PerSpecJsonSchemaError: string := "Per spec is not supported for single JSON schema generation at the moment."
  const RootMissingError: string := "Root object has to be specified"
  const PerSpecInternalError: string := "Per spec is not supported for internal schema generation at the moment."
  const WildcardError: string := "\n                    Output file name must contain a wildcard.\n                    For example, a valid wildcard is 'path/to/*.json'"

  /** `serialize_to_json_schema`: the object the schema is rendered for.
   *  Per-spec output and a missing root are refused before the model is
   *  looked at. */
  function JsonSchemaTarget(m: Model, root: Option<string>, state: MergeState): (r: Result<string>)
    ensures state.NoMerge? ==> r == Err(PerSpecJsonSchemaError)
    ensures state.Merge? && root.None? ==> r == Err(RootMissingError)
    ensures r.Ok? ==> state.Merge? && root == Some(r.value) && r.value in ObjectNames(m.objects)
    ensures state.Merge? && root.Some? && root.value in ObjectNames(m.objects) ==> r == Ok(root.value)
    ensures state.Merge? && root.Some? && m.objects == [] ==> r == Panic(NoObjectsPanic)
    ensures state.Merge? && root.Some? && m.objects != [] && root.value !in ObjectNames(m.objects) ==>
      r == Panic("Object '" + root.value + "' not found in the markdown file")
  {
    if state.NoMerge? then Err(PerSpecJsonSchemaError)
    else match root
      case None => Err(RootMissingError)
      case Some(name) => JsonSchemaRoot(m, Some(name))
  }

  /** `serialize_to_internal_schema`: only the merged model, and only one
   *  with objects, is serialised. */
  function InternalSchema(m: Model, state: MergeState): (r: Result<Model>)
    ensures r.Ok? <==> state.Merge? && m.objects != []
    ensures state.NoMerge? ==> r == Err(PerSpecInternalError)
    ensures r.Ok? ==> r.value == m
  {
    if state.NoMerge? then Err(PerSpecInternalError) else SdrdmSchemaOf(m)
  }

  /** Where one document is written under a wildcard output name. */
  function OutputFor(out: string, spec: string): Result<string>
  {
    match GetFileName(spec)
    case Err(e, panicked) => Err(e, panicked)
    case Ok(stem) => ReplaceWildcardFileName(out, stem)
  }

  /** The files `serialize_by_template` writes: the one output when merging;
   *  otherwise one per document named after it, and only under a wildcard
   *  output name. */
  function TemplateOutputs(out: string, specs: seq<string>, state: MergeState): (r: Result<seq<string>>)
    ensures state.Merge? ==> r == Ok([out])
    ensures state.NoMerge? && !HasWildcardFileName(out) ==> r == Err(WildcardError)
    ensures r.Ok? && state.NoMerge? ==> |r.value| == |specs|
  {
    if state.Merge? then Ok([out])
    else if !HasWildcardFileName(out) then Err(WildcardError)
    else TryMap((spec: string) => OutputFor(out, spec), specs)
  }

  /** Without merging, every document is written to the wildcard output
   *  name with its star replaced by the document's stem. */
  lemma TemplateOutputsNamed(out: string, specs: seq<string>, i: nat)
    requires TemplateOutputs(out, specs, NoMerge).Ok? && i < |specs|
    requires !Text.EndsWith(Dir(out), "//")
    ensures HasWildcardFileName(out) && GetFileName(specs[i]).Ok?
    ensures TemplateOutputs(out, specs, NoMerge).value[i]
      == out[..StarIndex(out)] + GetFileName(specs[i]).value + out[StarIndex(out) + 1..]
  {
    var f := (spec: string) => OutputFor(out, spec);
    assert TemplateOutputs(out, specs, NoMerge) == TryMap(f, specs);
    assert TemplateOutputs(out, specs, NoMerge).value[i] == OutputFor(out, specs[i]).value;
    assert OutputFor(out, specs[i]).Ok?;
    assert GetFileName(specs[i]).Ok?;
    var stem := GetFileName(specs[i]).value;
    StemHasNoSeparator(specs[i]);
    WildcardOutput(out, stem);
  }

  /** A stem is part of a file name, so it holds no separator. */
  lemma StemHasNoSeparator(p: string)
    requires GetFileName(p).Ok?
    ensures '/' !in GetFileName(p).value
  {
    var stem := GetFileName(p).value;
    var name := FileName(p).value;
    assert forall j :: 0 <= j < |stem| ==> stem[j] == name[j];
  }

  /** The directories `serialize_all_json_schemes` writes into: the output
   *  itself when merging, else one per document named after it. */
  function JsonSchemaAllOutputs(out: string, specs: seq<string>, state: MergeState): (r: Result<seq<string>>)
    ensures state.Merge? ==> r == Ok([out])
    ensures r.Ok? && state.NoMerge? ==> |r.value| == |specs|
    ensures state.NoMerge? ==> (r.Ok? <==> forall i :: 0 <= i < |specs| ==> FileName(specs[i]).Some?)
    ensures r.Ok? && state.NoMerge? ==>
      forall i :: 0 <= i < |specs| ==> r.value[i] == PathJoin(out, GetFileName(specs[i]).value)
    ensures r.Err? ==> r == Panic(UnwrapNonePanic)
  {
    if state.Merge? then Ok([out])
    else TryMap((spec: string) => AllOutputFor(out, spec), specs)
  }

  function AllOutputFor(out: string, spec: string): (r: Result<string>)
    ensures r.Ok? <==> FileName(spec).Some?
    ensures r.Ok? ==> r.value == PathJoin(out, GetFileName(spec).value)
    ensures r.Err? ==> r == Panic(UnwrapNonePanic)
  {
    match GetFileName(spec)
    case Err(e, panicked) => Err(e, panicked)
    case Ok(stem) => Ok(PathJoin(out, stem))
  }
}
