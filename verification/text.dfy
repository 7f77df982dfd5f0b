/** String helpers standing in for the parts of Rust's `str`/`char` API the
 *  source calls. Character classes are the ASCII subsets of Rust's Unicode
 *  classes. */
module Text {
  predicate IsAsciiUpper(c: char) { 'A' <= c <= 'Z' }
  predicate IsAsciiLower(c: char) { 'a' <= c <= 'z' }
  predicate IsDigit(c: char) { '0' <= c <= '9' }

  /** `char::is_alphabetic` on ASCII letters. */
  predicate IsAlphabetic(c: char) { IsAsciiUpper(c) || IsAsciiLower(c) }

  /** `char::is_alphanumeric` on ASCII letters and digits. */
  predicate IsAlphanumeric(c: char) { IsAlphabetic(c) || IsDigit(c) }

  /** `char::is_whitespace` on the ASCII white-space characters. */
  predicate IsWhitespace(c: char)
  {
    c == ' ' || c == '\t' || c == '\n' || c == '\r' || c == '\U{B}' || c == '\U{C}'
  }

  function ToLowerChar(c: char): char
  {
    if IsAsciiUpper(c) then (c as int + 32) as char else c
  }

  function ToUpperChar(c: char): char
  {
    if IsAsciiLower(c) then (c as int - 32) as char else c
  }

  /** `str::to_lowercase`. */
  function ToLower(s: string): (r: string)
    ensures |r| == |s|
    ensures forall i :: 0 <= i < |s| ==> r[i] == ToLowerChar(s[i])
  {
    seq(|s|, i requires 0 <= i < |s| => ToLowerChar(s[i]))
  }

  /** `str::to_uppercase`. */
  function ToUpper(s: string): (r: string)
    ensures |r| == |s|
    ensures forall i :: 0 <= i < |s| ==> r[i] == ToUpperChar(s[i])
  {
    seq(|s|, i requires 0 <= i < |s| => ToUpperChar(s[i]))
  }

  /** `str::strip_prefix(p).unwrap_or(s)`. */
  function StripPrefixOr(s: string, p: string): (r: string)
    ensures StartsWith(s, p) ==> s == p + r
    ensures !StartsWith(s, p) ==> r == s
  {
    if StartsWith(s, p) then
      assert s == p + s[|p|..];
      s[|p|..]
    else s
  }

  lemma ToLowerIdempotent(s: string)
    ensures ToLower(ToLower(s)) == ToLower(s)
  {
    var l := ToLower(s);
    assert forall i :: 0 <= i < |l| ==> ToLowerChar(l[i]) == l[i];
  }

  predicate StartsWith(s: string, p: string)
  {
    |p| <= |s| && s[..|p|] == p
  }

  predicate EndsWith(s: string, p: string)
  {
    |p| <= |s| && s[|s| - |p|..] == p
  }

  /** `str::trim_start`. */
  function TrimStart(s: string): (r: string)
    ensures |r| <= |s| && r == s[|s| - |r|..]
    ensures r != [] ==> !IsWhitespace(r[0])
    ensures forall i :: 0 <= i < |s| - |r| ==> IsWhitespace(s[i])
  {
    if s != [] && IsWhitespace(s[0]) then TrimStart(s[1..]) else s
  }

  /** `str::trim_end`. */
  function TrimEnd(s: string): (r: string)
    ensures |r| <= |s| && r == s[..|r|]
    ensures r != [] ==> !IsWhitespace(r[|r| - 1])
    ensures forall i :: |r| <= i < |s| ==> IsWhitespace(s[i])
  {
    if s != [] && IsWhitespace(s[|s| - 1]) then TrimEnd(s[..|s| - 1]) else s
  }

  /** `str::trim`. */
  function Trim(s: string): (r: string)
    ensures r != [] ==> !IsWhitespace(r[0]) && !IsWhitespace(r[|r| - 1])
  {
    TrimEnd(TrimStart(s))
  }

  /** `str::trim_matches(c)`: every leading and trailing `c` removed. */
  function TrimMatches(s: string, c: char): (r: string)
    ensures r != [] ==> r[0] != c && r[|r| - 1] != c
  {
    if s == [] then []
    else if s[0] == c then TrimMatches(s[1..], c)
    else if s[|s| - 1] == c then TrimMatches(s[..|s| - 1], c)
    else s
  }

  /** `str::trim_end_matches(p)` for a non-empty pattern: every trailing
   *  repetition of `p` removed. */
  function TrimEndMatches(s: string, p: string): (r: string)
    requires p != []
    ensures |r| <= |s| && r == s[..|r|]
    ensures !EndsWith(r, p)
  {
    if EndsWith(s, p) then TrimEndMatches(s[..|s| - |p|], p) else s
  }

  /** Position of the first `c` in `s`. */
  function IndexOf(s: string, c: char): (i: nat)
    requires c in s
    ensures i < |s| && s[i] == c && c !in s[..i]
  {
    if s[0] == c then 0 else 1 + IndexOf(s[1..], c)
  }

  /** `str::split(c)`: the pieces between the separators, always at least one. */
  function Split(s: string, sep: char): (r: seq<string>)
    ensures |r| >= 1
    decreases |s|
  {
    if sep !in s then [s]
    else
      var i := IndexOf(s, sep);
      [s[..i]] + Split(s[i + 1..], sep)
  }

  /** No piece of a split holds the separator. */
  lemma {:induction false} SplitPieces(s: string, sep: char, k: nat)
    requires k < |Split(s, sep)|
    ensures sep !in Split(s, sep)[k]
    decreases |s|
  {
    if sep in s && k > 0 {
      var i := IndexOf(s, sep);
      assert Split(s, sep)[k] == Split(s[i + 1..], sep)[k - 1];
      SplitPieces(s[i + 1..], sep, k - 1);
    }
  }

  /** `str::split(sep).last()`: the longest suffix of `s` without a
   *  separator, which is all of `s` when there is none. */
  function LastPiece(s: string, sep: char): (r: string)
    ensures sep !in r
    ensures |r| <= |s| && s[|s| - |r|..] == r
    ensures |r| < |s| ==> s[|s| - |r| - 1] == sep
  {
    if s == [] || s[|s| - 1] == sep then []
    else LastPiece(s[..|s| - 1], sep) + [s[|s| - 1]]
  }

  /** Whatever comes before the last separator, the last piece is what
   *  follows it. */
  lemma {:induction false} LastPieceOfPath(prefix: string, sep: char, name: string)
    requires sep !in name
    ensures LastPiece(prefix + [sep] + name, sep) == name
    decreases |name|
  {
    var s := prefix + [sep] + name;
    if name != [] {
      var init := name[..|name| - 1];
      assert s[..|s| - 1] == prefix + [sep] + init;
      assert name[|name| - 1] in name;
      LastPieceOfPath(prefix, sep, init);
      assert name == init + [name[|name| - 1]];
    }
  }

  /** A string without the separator is its own last piece. */
  lemma LastPieceWhole(s: string, sep: char)
    requires sep !in s
    ensures LastPiece(s, sep) == s
  {
    var r := LastPiece(s, sep);
    assert s[|s| - |r|..] == s;
  }

  /** `[&str]::join(sep)` with a one-character separator. */
  function Join(parts: seq<string>, sep: string): string
  {
    if parts == [] then ""
    else if |parts| == 1 then parts[0]
    else parts[0] + sep + Join(parts[1..], sep)
  }

  lemma {:induction false} JoinSplit(s: string, sep: char)
    ensures Join(Split(s, sep), [sep]) == s
    decreases |s|
  {
    if sep in s {
      var i := IndexOf(s, sep);
      var rest := s[i + 1..];
      var parts := Split(s, sep);
      JoinSplit(rest, sep);
      assert parts == [s[..i]] + Split(rest, sep);
      assert parts[1..] == Split(rest, sep);
      assert Join(parts, [sep]) == s[..i] + [sep] + Join(parts[1..], [sep]);
      assert s == s[..i] + [sep] + rest;
    } else {
      assert Split(s, sep) == [s];
    }
  }

  /** `str::replace(c, t)`: every `c` replaced by `t`. */
  function Replace(s: string, c: char, t: string): (r: string)
    ensures c !in t ==> c !in r
    ensures c !in s ==> r == s
  {
    if s == [] then [] else (if s[0] == c then t else [s[0]]) + Replace(s[1..], c, t)
  }

  /** Every occurrence of `c` removed (`replace(c, "")`). */
  function Remove(s: string, c: char): (r: string)
    ensures c !in r && |r| <= |s|
  {
    if s == [] then [] else (if s[0] == c then [] else [s[0]]) + Remove(s[1..], c)
  }

  /** `str::split_whitespace`: the maximal non-empty runs of non-white-space. */
  function SplitWhitespace(s: string): (r: seq<string>)
    ensures forall k :: 0 <= k < |r| ==> r[k] != [] && forall j :: 0 <= j < |r[k]| ==> !IsWhitespace(r[k][j])
    decreases |s|
  {
    var t := TrimStart(s);
    if t == [] then []
    else
      var n := WordLength(t);
      assert n > 0 by { assert !IsWhitespace(t[0]); }
      var word := t[..n];
      assert forall j :: 0 <= j < |word| ==> !IsWhitespace(word[j]);
      [word] + SplitWhitespace(t[n..])
  }

  /** Length of the run of non-white-space at the start of `s`. */
  function WordLength(s: string): (n: nat)
    ensures n <= |s|
    ensures forall j :: 0 <= j < n ==> !IsWhitespace(s[j])
    ensures n < |s| ==> IsWhitespace(s[n])
  {
    if s == [] || IsWhitespace(s[0]) then 0 else 1 + WordLength(s[1..])
  }

  /** `str::lines`: split on '\n', drop one trailing '\r' per line, and no
   *  final empty line after a trailing '\n'. */
  function Lines(s: string): (r: seq<string>)
    ensures forall k :: 0 <= k < |r| ==> '\n' !in r[k]
  {
    if s == [] then []
    else
      var pieces := Split(s, '\n');
      assert forall k :: 0 <= k < |pieces| ==> '\n' !in pieces[k] by {
        forall k | 0 <= k < |pieces| ensures '\n' !in pieces[k] {
          SplitPieces(s, '\n', k);
        }
      }
      var kept := if pieces[|pieces| - 1] == [] then pieces[..|pieces| - 1] else pieces;
      DropCarriageReturns(kept)
  }

  function DropCarriageReturns(lines: seq<string>): (r: seq<string>)
    requires forall k :: 0 <= k < |lines| ==> '\n' !in lines[k]
    ensures |r| == |lines|
    ensures forall k :: 0 <= k < |r| ==> '\n' !in r[k]
  {
    if lines == [] then []
    else
      var l := lines[0];
      var l' := if l != [] && l[|l| - 1] == '\r' then l[..|l| - 1] else l;
      assert forall j :: 0 <= j < |l'| ==> l'[j] == l[j];
      [l'] + DropCarriageReturns(lines[1..])
  }
}
