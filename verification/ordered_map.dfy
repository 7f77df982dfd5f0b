/** `BTreeMap<String, V>`: entries kept in ascending key order, one per key. */
module OrderedMaps {
  import opened Wrappers
  import opened StringOrder

  type OrderedMap<V> = seq<(string, V)>

  function Keys<V>(m: OrderedMap<V>): (r: seq<string>)
    ensures |r| == |m| && forall i :: 0 <= i < |m| ==> r[i] == m[i].0
  {
    seq(|m|, i requires 0 <= i < |m| => m[i].0)
  }

  function Values<V>(m: OrderedMap<V>): (r: seq<V>)
    ensures |r| == |m| && forall i :: 0 <= i < |m| ==> r[i] == m[i].1
  {
    seq(|m|, i requires 0 <= i < |m| => m[i].1)
  }

  /** Keys strictly ascending, hence distinct. */
  predicate Valid<V>(m: OrderedMap<V>)
  {
    forall i, j :: 0 <= i < j < |m| ==> Less(m[i].0, m[j].0)
  }

  lemma KeysCons<V>(m: OrderedMap<V>)
    requires m != []
    ensures Keys(m) == [m[0].0] + Keys(m[1..])
  {
  }

  lemma FirstKeyIn<V>(m: OrderedMap<V>)
    ensures m != [] ==> m[0].0 in Keys(m)
  {
    if m != [] {
      assert Keys(m)[0] == m[0].0;
    }
  }

  /** `BTreeMap::get`. */
  function Get<V>(m: OrderedMap<V>, k: string): (r: Option<V>)
    ensures r.Some? <==> k in Keys(m)
    ensures r.Some? ==> (k, r.value) in m
  {
    if m == [] then None
    else if m[0].0 == k then Some(m[0].1)
    else
      KeysCons(m);
      Get(m[1..], k)
  }

  /** `BTreeMap::insert`: a new key is placed before the first greater key,
   *  an existing key gets the new value. */
  function Insert<V>(m: OrderedMap<V>, k: string, v: V): (r: OrderedMap<V>)
    ensures forall x :: x in Keys(r) <==> x in Keys(m) || x == k
  {
    if m == [] then
      assert Keys([(k, v)]) == [k];
      [(k, v)]
    else if m[0].0 == k then
      KeysCons(m);
      KeysCons([(k, v)] + m[1..]);
      assert ([(k, v)] + m[1..])[1..] == m[1..];
      [(k, v)] + m[1..]
    else if Less(k, m[0].0) then
      KeysCons([(k, v)] + m);
      assert ([(k, v)] + m)[1..] == m;
      [(k, v)] + m
    else
      var t := Insert(m[1..], k, v);
      KeysCons(m);
      KeysCons([m[0]] + t);
      assert ([m[0]] + t)[1..] == t;
      [m[0]] + t
  }

  /** Insertion keeps the keys strictly ascending, and adds an entry exactly
   *  when the key is new. */
  lemma {:induction false} InsertValid<V>(m: OrderedMap<V>, k: string, v: V)
    requires Valid(m)
    ensures Valid(Insert(m, k, v))
    ensures |Insert(m, k, v)| == if k in Keys(m) then |m| else |m| + 1
  {
    if m != [] && m[0].0 != k && !Less(k, m[0].0) {
      var t := Insert(m[1..], k, v);
      InsertValid(m[1..], k, v);
      var r := [m[0]] + t;
      assert r == Insert(m, k, v);
      LessTotal(k, m[0].0);
      forall j | 0 < j < |r| ensures Less(r[0].0, r[j].0) {
        assert r[j].0 == Keys(t)[j - 1];
        if r[j].0 != k {
          assert r[j].0 in Keys(m[1..]);
          var i :| 0 <= i < |m[1..]| && Keys(m[1..])[i] == r[j].0;
          assert m[i + 1].0 == r[j].0;
        }
      }
    } else if m != [] && m[0].0 != k {
      var r := [(k, v)] + m;
      forall i, j | 0 <= i < j < |r| ensures Less(r[i].0, r[j].0) {
        if i == 0 && j > 1 {
          LessTransitive(k, m[0].0, m[j - 1].0);
        }
      }
      if k in Keys(m) {
        var i :| 0 <= i < |m| && Keys(m)[i] == k;
        if i > 0 {
          LessTransitive(k, m[0].0, m[i].0);
        }
        LessIrreflexive(k);
      }
    }
  }

  /** After `insert(k, v)`, `get(k)` yields `v` and every other key reads as
   *  before. */
  lemma {:induction false} InsertGet<V>(m: OrderedMap<V>, k: string, v: V)
    ensures Get(Insert(m, k, v), k) == Some(v)
    ensures forall x :: x != k ==> Get(Insert(m, k, v), x) == Get(m, x)
  {
    if m != [] && m[0].0 != k && !Less(k, m[0].0) {
      InsertGet(m[1..], k, v);
    }
  }

  /** Two maps with the same keys list them in the same order: the key
   *  sequence depends only on the key set. */
  lemma {:induction false} KeysDetermined<V>(a: OrderedMap<V>, b: OrderedMap<V>)
    requires Valid(a) && Valid(b)
    requires forall x :: x in Keys(a) <==> x in Keys(b)
    ensures Keys(a) == Keys(b)
  {
    if a == [] {
      if b != [] {
        FirstKeyIn(b);
        assert false;
      }
    } else {
      assert a[0].0 in Keys(a);
      assert b != [];
      SameLeast(a, b);
      TailKeys(a, b);
      KeysDetermined(a[1..], b[1..]);
      KeysCons(a);
      KeysCons(b);
    }
  }

  lemma SameLeast<V>(a: OrderedMap<V>, b: OrderedMap<V>)
    requires Valid(a) && Valid(b) && a != [] && b != []
    requires forall x :: x in Keys(a) <==> x in Keys(b)
    ensures a[0].0 == b[0].0
  {
    assert a[0].0 in Keys(a) && b[0].0 in Keys(b);
    var i :| 0 <= i < |a| && Keys(a)[i] == b[0].0;
    var j :| 0 <= j < |b| && Keys(b)[j] == a[0].0;
    if a[0].0 != b[0].0 {
      LessTotal(a[0].0, b[0].0);
      assert false;
    }
  }

  lemma TailKeys<V>(a: OrderedMap<V>, b: OrderedMap<V>)
    requires Valid(a) && Valid(b) && a != [] && b != [] && a[0].0 == b[0].0
    requires forall x :: x in Keys(a) <==> x in Keys(b)
    ensures Valid(a[1..]) && Valid(b[1..])
    ensures forall x :: x in Keys(a[1..]) <==> x in Keys(b[1..])
  {
    KeysCons(a);
    KeysCons(b);
    forall x | x in Keys(a[1..]) ensures x != a[0].0 {
      var i :| 0 <= i < |a[1..]| && Keys(a[1..])[i] == x;
      assert a[i + 1].0 == x;
      if x == a[0].0 {
        LessIrreflexive(x);
      }
    }
    forall x | x in Keys(b[1..]) ensures x != b[0].0 {
      var i :| 0 <= i < |b[1..]| && Keys(b[1..])[i] == x;
      assert b[i + 1].0 == x;
      if x == b[0].0 {
        LessIrreflexive(x);
      }
    }
    forall x ensures x in Keys(a[1..]) <==> x in Keys(b[1..]) {
      assert x in Keys(a) <==> x == a[0].0 || x in Keys(a[1..]);
      assert x in Keys(b) <==> x == b[0].0 || x in Keys(b[1..]);
    }
  }

  /** The entries inserted in order; `None` entries are skipped. */
  function InsertAll<V>(m: OrderedMap<V>, es: seq<Option<(string, V)>>): OrderedMap<V>
    decreases |es|
  {
    if es == [] then m
    else InsertAll(if es[0].Some? then Insert(m, es[0].value.0, es[0].value.1) else m, es[1..])
  }

  /** The value of the last entry with key `k`. */
  function LastValue<V>(es: seq<Option<(string, V)>>, k: string): Option<V>
  {
    if es == [] then None
    else
      var later := LastValue(es[1..], k);
      if later.Some? then later
      else if es[0].Some? && es[0].value.0 == k then Some(es[0].value.1)
      else None
  }

  lemma {:induction false} LastValueSome<V>(es: seq<Option<(string, V)>>, k: string)
    ensures LastValue(es, k).Some? <==> exists i :: 0 <= i < |es| && es[i].Some? && es[i].value.0 == k
  {
    if es != [] {
      LastValueSome(es[1..], k);
      assert forall i :: 1 <= i < |es| ==> es[i] == es[1..][i - 1];
    }
  }

  /** The last entry for a key wins; a key no entry has reads as before. */
  lemma {:induction false} InsertAllGet<V>(m: OrderedMap<V>, es: seq<Option<(string, V)>>, k: string)
    ensures Get(InsertAll(m, es), k) == if LastValue(es, k).Some? then LastValue(es, k) else Get(m, k)
    decreases |es|
  {
    if es != [] {
      var m' := if es[0].Some? then Insert(m, es[0].value.0, es[0].value.1) else m;
      InsertAllGet(m', es[1..], k);
      if es[0].Some? {
        InsertGet(m, es[0].value.0, es[0].value.1);
      }
    }
  }

  lemma {:induction false} InsertAllValid<V>(m: OrderedMap<V>, es: seq<Option<(string, V)>>)
    requires Valid(m)
    ensures Valid(InsertAll(m, es))
    decreases |es|
  {
    if es != [] {
      if es[0].Some? {
        InsertValid(m, es[0].value.0, es[0].value.1);
        InsertAllValid(Insert(m, es[0].value.0, es[0].value.1), es[1..]);
      } else {
        InsertAllValid(m, es[1..]);
      }
    }
  }

  /** In a valid map each entry is what its key reads. */
  lemma {:induction false} GetEntry<V>(m: OrderedMap<V>, i: nat)
    requires Valid(m) && i < |m|
    ensures Get(m, m[i].0) == Some(m[i].1)
  {
    if i > 0 {
      assert Less(m[0].0, m[i].0);
      if m[0].0 == m[i].0 {
        LessIrreflexive(m[0].0);
      }
      GetEntry(m[1..], i - 1);
    }
  }

  /** Two valid maps that read the same at every key are the same map. */
  lemma SameEntries<V>(a: OrderedMap<V>, b: OrderedMap<V>)
    requires Valid(a) && Valid(b)
    requires forall k :: Get(a, k) == Get(b, k)
    ensures a == b
  {
    forall x ensures x in Keys(a) <==> x in Keys(b) {
      assert Get(a, x) == Get(b, x);
    }
    KeysDetermined(a, b);
    forall i | 0 <= i < |a| ensures a[i] == b[i] {
      assert Keys(a)[i] == Keys(b)[i];
      GetEntry(a, i);
      GetEntry(b, i);
    }
  }
}
