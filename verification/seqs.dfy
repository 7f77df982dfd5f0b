/** Facts about sequences that several modules share. */
module Seqs {

  /** No element occurs twice. */
  predicate Distinct<T(==)>(s: seq<T>)
  {
    forall i, j :: 0 <= i < j < |s| ==> s[i] != s[j]
  }

  lemma MultisetInitLast<T>(s: seq<T>)
    requires s != []
    ensures multiset(s) == multiset(s[..|s| - 1]) + multiset{s[|s| - 1]}
  {
    assert s == s[..|s| - 1] + [s[|s| - 1]];
  }

  /** The results of `f` on each element, concatenated in order. */
  function ConcatMap<A, B>(f: A -> seq<B>, xs: seq<A>): seq<B>
  {
    if xs == [] then []
    else ConcatMap(f, xs[..|xs| - 1]) + f(xs[|xs| - 1])
  }

  lemma {:induction false} ConcatMapEmpty<A, B>(f: A -> seq<B>, xs: seq<A>)
    ensures ConcatMap(f, xs) == [] <==> forall k :: 0 <= k < |xs| ==> f(xs[k]) == []
  {
    if xs != [] {
      var init := xs[..|xs| - 1];
      ConcatMapEmpty(f, init);
      assert forall k :: 0 <= k < |init| ==> init[k] == xs[k];
    }
  }

  lemma ConcatMapPrefix<A, B>(f: A -> seq<B>, xs: seq<A>, i: nat)
    requires i < |xs|
    ensures ConcatMap(f, xs[..i + 1]) == ConcatMap(f, xs[..i]) + f(xs[i])
  {
    assert xs[..i + 1][..i] == xs[..i];
  }

  lemma ConcatMapSnoc<A, B>(f: A -> seq<B>, xs: seq<A>, x: A)
    ensures ConcatMap(f, xs + [x]) == ConcatMap(f, xs) + f(x)
  {
    InitOfSnoc(xs, x);
  }

  /** The results of `f` on each element, collected with repeats. */
  function SumMap<A, B>(f: A -> multiset<B>, xs: seq<A>): multiset<B>
  {
    if xs == [] then multiset{}
    else SumMap(f, xs[..|xs| - 1]) + f(xs[|xs| - 1])
  }

  lemma {:induction false} SumMapEmpty<A, B>(f: A -> multiset<B>, xs: seq<A>)
    ensures SumMap(f, xs) == multiset{} <==> forall k :: 0 <= k < |xs| ==> f(xs[k]) == multiset{}
  {
    if xs != [] {
      var init := xs[..|xs| - 1];
      SumMapEmpty(f, init);
      assert forall k :: 0 <= k < |init| ==> init[k] == xs[k];
    }
  }

  lemma SumMapPrefix<A, B>(f: A -> multiset<B>, xs: seq<A>, i: nat)
    requires i < |xs|
    ensures SumMap(f, xs[..i + 1]) == SumMap(f, xs[..i]) + f(xs[i])
  {
    assert xs[..i + 1][..i] == xs[..i];
  }

  /** The elements that occur more than once. */
  function DuplicateSet<T(==,!new)>(names: seq<T>): (r: set<T>)
    ensures forall n :: n in r <==> multiset(names)[n] > 1
  {
    set i | 0 <= i < |names| && multiset(names)[names[i]] > 1 :: names[i]
  }

  /** `unique_elements(v).len() != v.len()` holds exactly when some
   *  element repeats. */
  lemma {:induction false} UniqueCount<T(!new)>(names: seq<T>)
    ensures |set i | 0 <= i < |names| :: names[i]| <= |names|
    ensures |set i | 0 <= i < |names| :: names[i]| == |names| <==> DuplicateSet(names) == {}
  {
    if names != [] {
      var init := names[..|names| - 1];
      var last := names[|names| - 1];
      UniqueCount(init);
      var s0 := set i | 0 <= i < |init| :: init[i];
      var s := set i | 0 <= i < |names| :: names[i];
      assert s == s0 + {last} by {
        forall x | x in s ensures x in s0 + {last} {
          var i :| 0 <= i < |names| && names[i] == x;
          if i < |init| { assert init[i] == x; }
        }
      }
      MultisetInitLast(names);
      if last in s0 {
        var i :| 0 <= i < |init| && init[i] == last;
        assert multiset(init)[last] > 0;
        assert last in DuplicateSet(names);
      } else {
        assert multiset(init)[last] == 0;
        assert forall n :: n in DuplicateSet(names) <==> n in DuplicateSet(init);
      }
    }
  }

  /** An element repeats exactly when the sequence is not distinct. */
  lemma {:induction false} DuplicateSetEmpty<T(!new)>(names: seq<T>)
    ensures DuplicateSet(names) == {} <==> Distinct(names)
  {
    if names != [] {
      var init := names[..|names| - 1];
      var last := names[|names| - 1];
      DuplicateSetEmpty(init);
      DistinctSnoc(init, last);
      DuplicateSetSnoc(init, last);
      assert names == init + [last];
    }
  }

  lemma DistinctSnoc<T>(s: seq<T>, x: T)
    ensures Distinct(s + [x]) <==> Distinct(s) && x !in s
  {
    var r := s + [x];
    if Distinct(s) && x !in s {
      forall i, j | 0 <= i < j < |r| ensures r[i] != r[j] {
        assert r[i] == s[i];
      }
    }
    if Distinct(r) {
      forall i, j | 0 <= i < j < |s| ensures s[i] != s[j] {
        assert r[i] == s[i] && r[j] == s[j];
      }
      forall i | 0 <= i < |s| ensures s[i] != x {
        assert r[i] == s[i] && r[|s|] == x;
      }
    }
  }

  lemma DuplicateSetSnoc<T(!new)>(s: seq<T>, x: T)
    ensures x in s ==> x in DuplicateSet(s + [x])
    ensures x !in s ==> DuplicateSet(s + [x]) == DuplicateSet(s)
  {
    assert multiset(s + [x]) == multiset(s) + multiset{x};
  }

  lemma AppendAssoc<T>(a: seq<T>, b: seq<T>, c: seq<T>)
    ensures a + b + c == a + (b + c)
  {
  }

  lemma InitOfSnoc<T>(s: seq<T>, x: T)
    ensures (s + [x])[..|s|] == s
  {
  }

  /** Concatenation peeled from the front. */
  lemma {:induction false} ConcatMapCons<A, B>(f: A -> seq<B>, xs: seq<A>)
    requires xs != []
    ensures ConcatMap(f, xs) == f(xs[0]) + ConcatMap(f, xs[1..])
    decreases |xs|
  {
    if |xs| > 1 {
      var init := xs[..|xs| - 1];
      ConcatMapCons(f, init);
      assert init[1..] == xs[1..][..|xs[1..]| - 1];
      assert init[0] == xs[0];
    } else {
      assert xs[..0] == [] && xs[1..] == [];
    }
  }

  /** The elements satisfying `p`, in their order. */
  function Filter<T>(p: T -> bool, s: seq<T>): (r: seq<T>)
    ensures |r| <= |s|
    ensures forall i :: 0 <= i < |r| ==> p(r[i])
  {
    if s == [] then []
    else (if p(s[0]) then [s[0]] else []) + Filter(p, s[1..])
  }

  /** Filtering one more element keeps it exactly when it satisfies `p`. */
  lemma {:induction false} FilterSnoc<T>(p: T -> bool, s: seq<T>, x: T)
    ensures Filter(p, s + [x]) == Filter(p, s) + (if p(x) then [x] else [])
  {
    if s == [] {
      assert [x][1..] == [];
    } else {
      assert (s + [x])[1..] == s[1..] + [x];
      FilterSnoc(p, s[1..], x);
    }
  }

  /** An element is kept exactly when it occurs and satisfies `p`. */
  lemma {:induction false} FilterMembers<T>(p: T -> bool, s: seq<T>, x: T)
    ensures x in Filter(p, s) <==> x in s && p(x)
  {
    if s != [] {
      FilterMembers(p, s[1..], x);
      assert x in s <==> x == s[0] || x in s[1..];
    }
  }

  /** Nothing is dropped when every element satisfies `p`. */
  lemma {:induction false} FilterKeepsAll<T>(p: T -> bool, s: seq<T>)
    requires forall i :: 0 <= i < |s| ==> p(s[i])
    ensures Filter(p, s) == s
  {
    if s != [] {
      FilterKeepsAll(p, s[1..]);
    }
  }

  /** The elements of `s` once each, in the order they first occur: a
   *  `HashSet` collected from `s`, listed. */
  function Dedup<T(==,!new)>(s: seq<T>): (r: seq<T>)
    ensures Distinct(r)
    ensures forall x :: x in r <==> x in s
  {
    if s == [] then []
    else
      var rest := Dedup(s[..|s| - 1]);
      var x := s[|s| - 1];
      assert forall y :: y in s <==> y in s[..|s| - 1] || y == x by {
        assert s == s[..|s| - 1] + [x];
      }
      if x in rest then rest
      else
        DistinctSnoc(rest, x);
        rest + [x]
  }

  /** Deduplicating one more element keeps it exactly when it is new. */
  lemma DedupSnoc<T(!new)>(s: seq<T>, x: T)
    ensures Dedup(s + [x]) == if x in Dedup(s) then Dedup(s) else Dedup(s) + [x]
  {
    assert (s + [x])[..|s|] == s;
  }

  lemma FirstTwoDiffer<T>(d: seq<T>)
    requires Distinct(d) && |d| >= 2
    ensures d[0] != d[1] && d[0] in d && d[1] in d
  {
  }

  /** A distinct sequence is determined by its members when it has at most
   *  one. */
  lemma DistinctSingleton<T>(d: seq<T>, t: T)
    requires Distinct(d) && forall x :: x in d <==> x == t
    ensures d == [t]
  {
    assert t in d;
    if |d| >= 2 {
      FirstTwoDiffer(d);
      assert false;
    } else {
      assert d[0] in d;
    }
  }

  /** Whatever `f` yields for an element is part of the concatenation. */
  lemma {:induction false} ConcatMapContains<A, B>(f: A -> seq<B>, xs: seq<A>, i: nat, y: B)
    requires i < |xs| && y in f(xs[i])
    ensures y in ConcatMap(f, xs)
    decreases |xs|
  {
    if i < |xs| - 1 {
      ConcatMapContains(f, xs[..|xs| - 1], i, y);
    }
  }

  /** A sequence without repeats is its own deduplication. */
  lemma {:induction false} DedupDistinct<T(!new)>(s: seq<T>)
    requires Distinct(s)
    ensures Dedup(s) == s
  {
    if s != [] {
      var init := s[..|s| - 1];
      DedupDistinct(init);
      assert s == init + [s[|s| - 1]];
    }
  }

  /** Repeating the first element in front changes nothing. */
  lemma {:induction false} DedupRepeatFirst<T(!new)>(s: seq<T>)
    requires s != []
    ensures Dedup([s[0]] + s) == Dedup(s)
  {
    var t := [s[0]] + s;
    if |s| == 1 {
      assert t[..|t| - 1] == s;
    } else {
      var init := s[..|s| - 1];
      DedupRepeatFirst(init);
      assert t[..|t| - 1] == [init[0]] + init;
      assert t[|t| - 1] == s[|s| - 1];
    }
  }

  /** Filtering a sequence without repeats leaves one without repeats. */
  lemma {:induction false} FilterDistinct<T>(p: T -> bool, s: seq<T>)
    requires Distinct(s)
    ensures Distinct(Filter(p, s))
  {
    if s != [] {
      FilterDistinct(p, s[1..]);
      FilterMembers(p, s[1..], s[0]);
      var rest := Filter(p, s[1..]);
      if p(s[0]) {
        forall i, j | 0 <= i < j < |[s[0]] + rest| ensures ([s[0]] + rest)[i] != ([s[0]] + rest)[j] {
          if i == 0 {
            assert ([s[0]] + rest)[j] == rest[j - 1];
          }
        }
      }
    }
  }

  /** Every element of the concatenation comes from one of the parts. */
  lemma {:induction false} ConcatMapMember<A, B>(f: A -> seq<B>, xs: seq<A>, y: B)
    requires y in ConcatMap(f, xs)
    ensures exists i :: 0 <= i < |xs| && y in f(xs[i])
  {
    var init := xs[..|xs| - 1];
    if y !in f(xs[|xs| - 1]) {
      ConcatMapMember(f, init, y);
      var i :| 0 <= i < |init| && y in f(init[i]);
      assert init[i] == xs[i];
    }
  }
}
