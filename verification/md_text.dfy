/** The string handling of the markdown parser: removing HTML tags and
 *  links, reading an object heading, splitting an option line and reading
 *  the `key = value` lines of an enumeration block. */
module MarkdownText {
  import opened Wrappers
  import Text
  import OrderedMaps

  // ---------------------------------------------------------------------
  // clean_content
  // ---------------------------------------------------------------------

  /** Every character of a suffix is a character of the whole. */
  lemma SuffixMembers(s: string, n: nat)
    requires n <= |s|
    ensures forall c :: c in s[n..] ==> c in s
  {
    forall c | c in s[n..] ensures c in s {
      var m :| 0 <= m < |s[n..]| && s[n..][m] == c;
      assert s[n + m] == c;
    }
  }

  /** `Regex::new(r"<[^>]*>").replace_all(s, "")`: from each '<' that has a
   *  '>' somewhere after it, everything up to and including the first such
   *  '>' is dropped. */
  function StripTags(s: string): (r: string)
    ensures forall j :: 0 <= j < |r| ==> r[j] in s
    ensures '<' !in s ==> r == s
    decreases |s|
  {
    if s == [] then []
    else if s[0] == '<' && '>' in s then
      var k := Text.IndexOf(s, '>');
      SuffixMembers(s, k + 1);
      StripTags(s[k + 1..])
    else
      var rest := StripTags(s[1..]);
      SuffixMembers(s, 1);
      assert s == [s[0]] + s[1..];
      [s[0]] + rest
  }

  /** No '<' is followed, anywhere later, by a '>'. */
  predicate NoTag(r: string)
  {
    forall i, j :: 0 <= i < j < |r| && r[i] == '<' ==> r[j] != '>'
  }

  /** After tag removal every complete tag is gone. */
  lemma {:induction false} StripTagsLeavesNoTag(s: string)
    ensures NoTag(StripTags(s))
    decreases |s|
  {
    if s == [] {
    } else if s[0] == '<' && '>' in s {
      var k := Text.IndexOf(s, '>');
      StripTagsLeavesNoTag(s[k + 1..]);
      assert StripTags(s) == StripTags(s[k + 1..]);
    } else {
      var rest := StripTags(s[1..]);
      StripTagsLeavesNoTag(s[1..]);
      SuffixMembers(s, 1);
      var r := StripTags(s);
      assert r == [s[0]] + rest;
      forall i, j | 0 <= i < j < |r| && r[i] == '<' ensures r[j] != '>' {
        assert r[j] == rest[j - 1] && rest[j - 1] in s[1..];
        if i == 0 {
          assert s[0] == '<' && '>' !in s;
          assert r[j] in s;
        } else {
          assert r[i] == rest[i - 1];
        }
      }
    }
  }

  /** Where a markdown link `[text](target)` starts at the head of `s`:
   *  `\[([^]]+)]\([^)]+\)`, whose text runs to the first ']' and whose
   *  target to the first ')' after it; both are non-empty. */
  predicate LinkAt(s: string)
  {
    |s| > 0 && s[0] == '[' && ']' in s
    && var j := Text.IndexOf(s, ']');
    j >= 2 && j + 1 < |s| && s[j + 1] == '('
    && ')' in s[j + 2..] && Text.IndexOf(s[j + 2..], ')') >= 1
  }

  /** The link text, and the length of the whole link. */
  function LinkParts(s: string): (r: (string, nat))
    requires LinkAt(s)
    ensures 0 < r.1 <= |s| && r.0 == s[1..Text.IndexOf(s, ']')]
  {
    var j := Text.IndexOf(s, ']');
    (s[1..j], j + 2 + Text.IndexOf(s[j + 2..], ')') + 1)
  }

  /** `replace_all(s, "$1")` with the link pattern: each link is replaced
   *  by its text. */
  function StripLinks(s: string): (r: string)
    ensures '[' !in s ==> r == s
    decreases |s|
  {
    if s == [] then []
    else if LinkAt(s) then
      var (text, n) := LinkParts(s);
      text + StripLinks(s[n..])
    else
      assert s == [s[0]] + s[1..];
      [s[0]] + StripLinks(s[1..])
  }

  /** A link whose text has no ']' and whose target has no ')' is replaced
   *  by its text, and scanning carries on after it. */
  lemma StripLinksLink(text: string, target: string, rest: string)
    requires text != [] && ']' !in text
    requires target != [] && ')' !in target
    ensures StripLinks("[" + text + "](" + target + ")" + rest) == text + StripLinks(rest)
  {
    var s := "[" + text + "](" + target + ")" + rest;
    var j := |text| + 1;
    assert s[j] == ']' && ']' !in s[..j];
    assert Text.IndexOf(s, ']') == j by { IndexOfIsFirst(s, ']', j); }
    var t := s[j + 2..];
    assert t == target + ")" + rest;
    assert t[|target|] == ')' && ')' !in t[..|target|];
    assert Text.IndexOf(t, ')') == |target| by { IndexOfIsFirst(t, ')', |target|); }
    assert LinkAt(s);
    assert s[1..j] == text;
    assert s[j + 2 + |target| + 1..] == rest;
  }

  /** The first occurrence is the one `IndexOf` finds. */
  lemma IndexOfIsFirst(s: string, c: char, i: nat)
    requires i < |s| && s[i] == c && c !in s[..i]
    ensures Text.IndexOf(s, c) == i
  {
    var k := Text.IndexOf(s, c);
    assert forall m :: 0 <= m < i ==> s[..i][m] == s[m];
    assert forall m :: 0 <= m < k ==> s[..k][m] == s[m];
  }

  /** `clean_content`: HTML tags removed first, then links replaced by their
   *  text. */
  function CleanContent(content: string): (r: string)
    ensures '<' !in content && '[' !in content ==> r == content
  {
    StripLinks(StripTags(content))
  }

  // ---------------------------------------------------------------------
  // Object headings
  // ---------------------------------------------------------------------

  /** `(` at `i` and `)` at `k` enclose a non-empty text without ')': a
   *  match of `\(([^)]+)\)`. */
  predicate TermGroup(h: string, i: int, k: int)
  {
    0 <= i && i + 1 < k < |h| && h[i] == '(' && h[k] == ')' && ')' !in h[i + 1..k]
  }

  /** The leftmost match starting at or after `i`. */
  function GroupFrom(h: string, i: nat): (r: Option<(nat, nat)>)
    ensures r.Some? ==> i <= r.value.0 && TermGroup(h, r.value.0, r.value.1)
    ensures forall a, b :: i <= a && TermGroup(h, a, b) ==> r.Some? && r.value.0 <= a
    decreases |h| - i
  {
    if i >= |h| then None
    else if h[i] == '(' && ')' in h[i + 1..] && Text.IndexOf(h[i + 1..], ')') >= 1 then
      var k := i + 1 + Text.IndexOf(h[i + 1..], ')');
      assert h[i + 1..k] == h[i + 1..][..k - i - 1];
      Some((i, k))
    else
      forall b | i + 1 < b < |h| && h[i] == '(' && h[b] == ')' ensures h[i + 1] == ')' {
        assert h[i + 1..][b - i - 1] == ')';
      }
      forall b | i + 1 < b < |h| && h[i] == '(' && h[b] == ')' ensures !TermGroup(h, i, b) {
        assert h[i + 1..b][0] == h[i + 1];
      }
      GroupFrom(h, i + 1)
  }

  /** `extract_object_term`: the text of the first non-empty `(...)` group
   *  of the heading, or None when there is none. */
  function ExtractObjectTerm(heading: string): (r: Option<string>)
    ensures r.None? <==> forall a, b :: !TermGroup(heading, a, b)
    ensures r.Some? ==>
      exists a, b :: TermGroup(heading, a, b) && r.value == heading[a + 1..b]
        && forall a', b' :: TermGroup(heading, a', b') ==> a <= a'
  {
    var g := GroupFrom(heading, 0);
    if g.None? then None
    else
      var (a, b) := g.value;
      assert TermGroup(heading, a, b);
      Some(heading[a + 1..b])
  }

  /** The name `process_object_heading` reads: the first whitespace-separated
   *  word of the heading; a heading of white space only panics. */
  function HeadingName(heading: string): (r: Result<string>)
    ensures r.Err? <==> Text.SplitWhitespace(heading) == []
    ensures r.Err? ==> r == Panic(NoneUnwrapPanic)
    ensures r.Ok? ==> r.value == Text.SplitWhitespace(heading)[0]
    ensures r.Ok? ==> r.value != [] && Text.StartsWith(Text.TrimStart(heading), r.value)
    ensures r.Ok? ==> forall j :: 0 <= j < |r.value| ==> !Text.IsWhitespace(r.value[j])
  {
    var t := Text.TrimStart(heading);
    if t == [] then Panic(NoneUnwrapPanic)
    else
      var n := Text.WordLength(t);
      assert n > 0 by { assert !Text.IsWhitespace(t[0]); }
      Ok(t[..n])
  }

  // ---------------------------------------------------------------------
  // Options
  // ---------------------------------------------------------------------

  /** A string with a separator splits into more than one piece. */
  lemma SplitHasSeveralPieces(s: string, sep: char)
    ensures |Text.Split(s, sep)| > 1 <==> sep in s
  {
    if sep in s {
      var i := Text.IndexOf(s, sep);
      assert Text.Split(s, sep) == [s[..i]] + Text.Split(s[i + 1..], sep);
    }
  }

  /** The pieces after the first separator rejoin to the text after it. */
  lemma SplitRest(s: string, sep: char)
    requires sep in s
    ensures var parts := Text.Split(s, sep); var i := Text.IndexOf(s, sep);
      parts[0] == s[..i] && Text.Join(parts[1..], [sep]) == s[i + 1..]
  {
    var i := Text.IndexOf(s, sep);
    var tail := Text.Split(s[i + 1..], sep);
    var parts := Text.Split(s, sep);
    assert parts == [s[..i]] + tail;
    assert parts[1..] == tail;
    Text.JoinSplit(s[i + 1..], sep);
  }

  function OptionPanic(option: string): string
  {
    "Attribute " + option + " does not have a valid option"
  }

  /** `process_option`: without a ':' the assertion panics. */
  function ProcessOption(option: string): (r: Result<(string, string)>)
    ensures r.Err? <==> ':' !in option
    ensures r.Err? ==> r == Panic(OptionPanic(option))
  {
    var parts := Text.Split(option, ':');
    SplitHasSeveralPieces(option, ':');
    if |parts| <= 1 then Panic(OptionPanic(option))
    else Ok((Text.Trim(parts[0]), Text.Trim(Text.Join(parts[1..], ":"))))
  }

  /** The key is the trimmed text before the first ':' and the value the
   *  trimmed text after it, with any later ':' kept. */
  lemma ProcessOptionParts(option: string)
    requires ':' in option
    ensures var i := Text.IndexOf(option, ':');
      ProcessOption(option) == Ok((Text.Trim(option[..i]), Text.Trim(option[i + 1..])))
  {
    SplitHasSeveralPieces(option, ':');
    SplitRest(option, ':');
  }

  // ---------------------------------------------------------------------
  // Enumeration mappings
  // ---------------------------------------------------------------------

  /** Splitting yields one more piece than there are separators. */
  lemma {:induction false} SplitCount(s: string, sep: char)
    ensures |Text.Split(s, sep)| == multiset(s)[sep] + 1
    decreases |s|
  {
    if sep in s {
      var i := Text.IndexOf(s, sep);
      SplitCount(s[i + 1..], sep);
      assert s == s[..i] + [sep] + s[i + 1..];
      assert multiset(s[..i])[sep] == 0;
    } else {
      assert multiset(s)[sep] == 0;
    }
  }

  /** One mapping line: exactly one '=', key and value trimmed and with
   *  every '"' removed; any other line is skipped. */
  function MappingEntry(line: string): (r: Option<(string, string)>)
    ensures r.Some? <==> multiset(line)['='] == 1
    ensures r.Some? ==> '"' !in r.value.0 && '"' !in r.value.1
  {
    var parts := Text.Split(line, '=');
    SplitCount(line, '=');
    if |parts| != 2 then None
    else Some((Text.Remove(Text.Trim(parts[0]), '"'), Text.Remove(Text.Trim(parts[1]), '"')))
  }

  /** The key is the text before the '=' and the value the text after it,
   *  each trimmed and then stripped of '"'. */
  lemma MappingEntryParts(line: string)
    requires multiset(line)['='] == 1
    ensures '=' in line
    ensures var i := Text.IndexOf(line, '=');
      MappingEntry(line) == Some((Text.Remove(Text.Trim(line[..i]), '"'), Text.Remove(Text.Trim(line[i + 1..]), '"')))
  {
    SplitCount(line, '=');
    SplitRest(line, '=');
    var parts := Text.Split(line, '=');
    assert parts[1..] == [parts[1]];
  }

  /** The entry each line gives, in order. */
  function Entries(lines: seq<string>): (r: seq<Option<(string, string)>>)
    ensures |r| == |lines| && forall i :: 0 <= i < |lines| ==> r[i] == MappingEntry(lines[i])
  {
    seq(|lines|, i requires 0 <= i < |lines| => MappingEntry(lines[i]))
  }

  /** The map after the lines are applied in order, each entry inserted
   *  with `BTreeMap::insert`. */
  function Mappings(m: OrderedMaps.OrderedMap<string>, lines: seq<string>): OrderedMaps.OrderedMap<string>
  {
    OrderedMaps.InsertAll(m, Entries(lines))
  }

  /** A repeated key keeps the value of its last line; a key no line gives
   *  reads as before; the entries stay one per key in ascending order. */
  lemma MappingsGet(m: OrderedMaps.OrderedMap<string>, lines: seq<string>, k: string)
    requires OrderedMaps.Valid(m)
    ensures OrderedMaps.Valid(Mappings(m, lines))
    ensures var last := OrderedMaps.LastValue(Entries(lines), k);
      OrderedMaps.Get(Mappings(m, lines), k) == if last.Some? then last else OrderedMaps.Get(m, k)
    ensures OrderedMaps.LastValue(Entries(lines), k).Some? <==>
      exists i :: 0 <= i < |lines| && MappingEntry(lines[i]).Some? && MappingEntry(lines[i]).value.0 == k
  {
    var es := Entries(lines);
    OrderedMaps.InsertAllGet(m, es, k);
    OrderedMaps.InsertAllValid(m, es);
    OrderedMaps.LastValueSome(es, k);
  }

  /** `process_enum_mappings`: one insertion per mapping line of the block. */
  method ProcessEnumMappings(m: OrderedMaps.OrderedMap<string>, mappings: string)
    returns (r: OrderedMaps.OrderedMap<string>)
    ensures r == Mappings(m, Text.Split(mappings, '\n'))
  {
    var lines := Text.Split(mappings, '\n');
    ghost var es := Entries(lines);
    r := m;
    for i := 0 to |lines|
      invariant OrderedMaps.InsertAll(r, es[i..]) == OrderedMaps.InsertAll(m, es)
    {
      assert es[i..][1..] == es[i + 1..];
      var parts := Text.Split(lines[i], '=');
      SplitCount(lines[i], '=');
      if |parts| != 2 {
        continue;
      }
      SplitRest(lines[i], '=');
      assert parts[1..] == [parts[1]];
      var key := Text.Remove(Text.Trim(parts[0]), '"');
      var value := Text.Remove(Text.Trim(parts[1]), '"');
      r := OrderedMaps.Insert(r, key, value);
    }
  }
}
