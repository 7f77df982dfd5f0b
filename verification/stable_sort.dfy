/** `slice::sort_by_key`: a stable sort on an integer key. */
module StableSort {
  import opened Seqs

  predicate SortedBy<T>(key: T -> int, s: seq<T>)
  {
    forall i, j :: 0 <= i < j < |s| ==> key(s[i]) <= key(s[j])
  }

  /** `x` placed after every element whose key is not greater. */
  function InsertBy<T>(key: T -> int, sorted: seq<T>, x: T): (r: seq<T>)
    ensures multiset(r) == multiset(sorted) + multiset{x}
  {
    if sorted == [] || key(sorted[|sorted| - 1]) <= key(x) then sorted + [x]
    else
      var init := sorted[..|sorted| - 1];
      assert sorted == init + [sorted[|sorted| - 1]];
      InsertBy(key, init, x) + [sorted[|sorted| - 1]]
  }

  function SortBy<T>(key: T -> int, s: seq<T>): (r: seq<T>)
    ensures multiset(r) == multiset(s)
  {
    if s == [] then []
    else
      MultisetInitLast(s);
      InsertBy(key, SortBy(key, s[..|s| - 1]), s[|s| - 1])
  }

  lemma {:induction false} InsertBySorted<T>(key: T -> int, sorted: seq<T>, x: T)
    requires SortedBy(key, sorted)
    ensures SortedBy(key, InsertBy(key, sorted, x))
  {
    if sorted != [] && key(x) < key(sorted[|sorted| - 1]) {
      var init := sorted[..|sorted| - 1];
      var last := sorted[|sorted| - 1];
      InsertBySorted(key, init, x);
      var t := InsertBy(key, init, x);
      var r := t + [last];
      forall i | 0 <= i < |t| ensures key(r[i]) <= key(last) {
        assert r[i] in multiset(t);
        assert r[i] in multiset(init) + multiset{x};
        if r[i] != x {
          assert r[i] in init;
          var k :| 0 <= k < |init| && init[k] == r[i];
          assert sorted[k] == r[i];
        }
      }
    }
  }

  /** The result is ordered by key. */
  lemma {:induction false} SortBySorted<T>(key: T -> int, s: seq<T>)
    ensures SortedBy(key, SortBy(key, s))
  {
    if s != [] {
      SortBySorted(key, s[..|s| - 1]);
      InsertBySorted(key, SortBy(key, s[..|s| - 1]), s[|s| - 1]);
    }
  }

  /** The elements with key `k`, in order. */
  function WithKey<T>(key: T -> int, s: seq<T>, k: int): seq<T>
  {
    if s == [] then []
    else WithKey(key, s[..|s| - 1], k) + KeyPart(key, s[|s| - 1], k)
  }

  function KeyPart<T>(key: T -> int, e: T, k: int): seq<T>
  {
    if key(e) == k then [e] else []
  }

  lemma WithKeySnoc<T>(key: T -> int, s: seq<T>, e: T, k: int)
    ensures WithKey(key, s + [e], k) == WithKey(key, s, k) + KeyPart(key, e, k)
  {
    InitOfSnoc(s, e);
  }

  lemma {:induction false} InsertByStable<T>(key: T -> int, sorted: seq<T>, x: T, k: int)
    ensures WithKey(key, InsertBy(key, sorted, x), k) == WithKey(key, sorted, k) + KeyPart(key, x, k)
  {
    if sorted != [] && key(x) < key(sorted[|sorted| - 1]) {
      var init := sorted[..|sorted| - 1];
      var last := sorted[|sorted| - 1];
      var t := InsertBy(key, init, x);
      InsertByStable(key, init, x, k);
      WithKeySnoc(key, t, last, k);
      var a, b, c := WithKey(key, init, k), KeyPart(key, x, k), KeyPart(key, last, k);
      assert b == [] || c == [];
      assert a + b + c == a + c + b;
    } else {
      WithKeySnoc(key, sorted, x, k);
    }
  }

  /** Elements with equal keys keep their relative order. */
  lemma {:induction false} SortByStable<T>(key: T -> int, s: seq<T>, k: int)
    ensures WithKey(key, SortBy(key, s), k) == WithKey(key, s, k)
  {
    if s != [] {
      SortByStable(key, s[..|s| - 1], k);
      InsertByStable(key, SortBy(key, s[..|s| - 1]), s[|s| - 1], k);
    }
  }
}
