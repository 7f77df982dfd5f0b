/** `IndexMap<String, V>`: entries in insertion order, one per key. Inserting
 *  an existing key replaces its value where it stands; a new key goes last. */
module IndexMaps {
  import opened Wrappers
  import opened Seqs

  type IndexMap<V> = seq<(string, V)>

  function Keys<V>(m: IndexMap<V>): (r: seq<string>)
    ensures |r| == |m| && forall i :: 0 <= i < |m| ==> r[i] == m[i].0
  {
    seq(|m|, i requires 0 <= i < |m| => m[i].0)
  }

  /** Keys are distinct. */
  predicate Valid<V>(m: IndexMap<V>)
  {
    Distinct(Keys(m))
  }

  /** `IndexMap::get`. */
  function Get<V>(m: IndexMap<V>, k: string): (r: Option<V>)
    ensures r.Some? <==> k in Keys(m)
    ensures r.Some? ==> (k, r.value) in m
  {
    if m == [] then None
    else if m[0].0 == k then Some(m[0].1)
    else
      assert Keys(m) == [m[0].0] + Keys(m[1..]);
      Get(m[1..], k)
  }

  /** `IndexMap::insert`. */
  function Insert<V>(m: IndexMap<V>, k: string, v: V): IndexMap<V>
  {
    if m == [] then [(k, v)]
    else if m[0].0 == k then [(k, v)] + m[1..]
    else [m[0]] + Insert(m[1..], k, v)
  }

  /** Inserting keeps the keys where they stand and puts a new key last. */
  lemma {:induction false} InsertKeys<V>(m: IndexMap<V>, k: string, v: V)
    ensures Keys(Insert(m, k, v)) == if k in Keys(m) then Keys(m) else Keys(m) + [k]
  {
    if m != [] {
      assert m == [m[0]] + m[1..];
      KeysAppend([m[0]], m[1..]);
      if m[0].0 == k {
        KeysAppend([(k, v)], m[1..]);
      } else {
        InsertKeys(m[1..], k, v);
        KeysAppend([m[0]], Insert(m[1..], k, v));
      }
    }
  }

  /** After an insertion `k` reads the new value and every other key reads
   *  as before. */
  lemma {:induction false} InsertGet<V>(m: IndexMap<V>, k: string, v: V, x: string)
    ensures Get(Insert(m, k, v), x) == if x == k then Some(v) else Get(m, x)
  {
    if m != [] && m[0].0 != k {
      InsertGet(m[1..], k, v, x);
      assert ([m[0]] + Insert(m[1..], k, v))[1..] == Insert(m[1..], k, v);
    } else if m != [] {
      assert ([(k, v)] + m[1..])[1..] == m[1..];
    }
  }

  /** A new key is appended. */
  lemma {:induction false} InsertNew<V>(m: IndexMap<V>, k: string, v: V)
    requires k !in Keys(m)
    ensures Insert(m, k, v) == m + [(k, v)]
  {
    if m != [] {
      assert Keys(m) == [m[0].0] + Keys(m[1..]);
      InsertNew(m[1..], k, v);
      assert m == [m[0]] + m[1..];
    }
  }

  /** `IndexMap::from_iter`: the pairs inserted one after another. */
  function FromPairs<V>(ps: seq<(string, V)>): IndexMap<V>
  {
    if ps == [] then []
    else Insert(FromPairs(ps[..|ps| - 1]), ps[|ps| - 1].0, ps[|ps| - 1].1)
  }

  /** One more pair is one more insertion. */
  lemma FromPairsSnoc<V>(ps: seq<(string, V)>, p: (string, V))
    ensures FromPairs(ps + [p]) == Insert(FromPairs(ps), p.0, p.1)
  {
    assert (ps + [p])[..|ps|] == ps;
  }

  /** The value of the last pair with key `k`. */
  function LastValue<V>(ps: seq<(string, V)>, k: string): Option<V>
  {
    if ps == [] then None
    else if ps[|ps| - 1].0 == k then Some(ps[|ps| - 1].1)
    else LastValue(ps[..|ps| - 1], k)
  }

  /** One more pair decides `k` when it has that key. */
  lemma LastValueSnoc<V>(ps: seq<(string, V)>, p: (string, V), k: string)
    ensures LastValue(ps + [p], k) == if p.0 == k then Some(p.1) else LastValue(ps, k)
  {
    assert (ps + [p])[..|ps|] == ps;
  }

  /** Keys come out once each, in the order they first occur. */
  lemma {:induction false} FromPairsKeys<V>(ps: seq<(string, V)>)
    ensures Keys(FromPairs(ps)) == Dedup(Keys(ps))
  {
    if ps != [] {
      var init := ps[..|ps| - 1];
      var last := ps[|ps| - 1];
      FromPairsKeys(init);
      InsertKeys(FromPairs(init), last.0, last.1);
      assert Keys(ps) == Keys(init) + [last.0] by {
        KeysAppend(init, [last]);
        assert ps == init + [last];
      }
      DedupSnoc(Keys(init), last.0);
      var d := Dedup(Keys(init));
      if last.0 in d {
        assert Keys(FromPairs(ps)) == d;
      } else {
        assert Keys(FromPairs(ps)) == d + [last.0];
      }
    }
  }

  /** A key reads the last value given for it. */
  lemma {:induction false} FromPairsGet<V>(ps: seq<(string, V)>, k: string)
    ensures Get(FromPairs(ps), k) == LastValue(ps, k)
  {
    if ps != [] {
      var init := ps[..|ps| - 1];
      var last := ps[|ps| - 1];
      FromPairsGet(init, k);
      InsertGet(FromPairs(init), last.0, last.1, k);
    }
  }

  /** Keys come out once each, in the order they first occur, so the map is
   *  valid; the value is the last one given for the key. */
  lemma FromPairsContents<V>(ps: seq<(string, V)>)
    ensures Keys(FromPairs(ps)) == Dedup(Keys(ps))
    ensures Valid(FromPairs(ps))
    ensures forall k :: Get(FromPairs(ps), k) == LastValue(ps, k)
  {
    FromPairsKeys(ps);
    forall k ensures Get(FromPairs(ps), k) == LastValue(ps, k) {
      FromPairsGet(ps, k);
    }
  }

  /** Pairs with distinct keys are kept as they are. */
  lemma {:induction false} FromDistinctPairs<V>(ps: seq<(string, V)>)
    requires Distinct(Keys(ps))
    ensures FromPairs(ps) == ps
  {
    if ps != [] {
      var init := ps[..|ps| - 1];
      assert Keys(ps) == Keys(init) + [ps[|ps| - 1].0];
      assert Distinct(Keys(init)) && ps[|ps| - 1].0 !in Keys(init);
      FromDistinctPairs(init);
      InsertNew(init, ps[|ps| - 1].0, ps[|ps| - 1].1);
      assert ps == init + [ps[|ps| - 1]];
    }
  }

  /** The last pair with a key is a pair of `ps`. */
  lemma {:induction false} LastValueIn<V>(ps: seq<(string, V)>, k: string)
    ensures LastValue(ps, k).Some? <==> k in Keys(ps)
    ensures LastValue(ps, k).Some? ==> (k, LastValue(ps, k).value) in ps
  {
    if ps != [] {
      LastValueIn(ps[..|ps| - 1], k);
      assert Keys(ps) == Keys(ps[..|ps| - 1]) + [ps[|ps| - 1].0];
    }
  }

  /** In a valid map each entry is what its key reads. */
  lemma {:induction false} GetEntry<V>(m: IndexMap<V>, i: nat)
    requires Valid(m) && i < |m|
    ensures Get(m, m[i].0) == Some(m[i].1)
  {
    if i > 0 {
      assert Keys(m)[0] != Keys(m)[i];
      assert Keys(m[1..]) == Keys(m)[1..];
      GetEntry(m[1..], i - 1);
    }
  }

  /** A surviving key comes from a passing entry. */
  lemma FilterKeysKept<V>(p: ((string, V)) -> bool, es: seq<(string, V)>, k: string) returns (i: nat)
    requires k in Keys(Filter(p, es))
    ensures i < |es| && es[i].0 == k && p(es[i])
  {
    var kept := Filter(p, es);
    var j :| 0 <= j < |kept| && Keys(kept)[j] == k;
    FilterMembers(p, es, kept[j]);
    i :| 0 <= i < |es| && es[i] == kept[j];
  }

  /** The key of a passing entry survives. */
  lemma FilterKeysPassing<V>(p: ((string, V)) -> bool, es: seq<(string, V)>, i: nat)
    requires i < |es| && p(es[i])
    ensures es[i].0 in Keys(Filter(p, es))
  {
    var kept := Filter(p, es);
    FilterMembers(p, es, es[i]);
    var j :| 0 <= j < |kept| && kept[j] == es[i];
    assert Keys(kept)[j] == es[i].0;
  }

  /** A key survives a filter exactly when one of its entries passes. */
  lemma FilterKeys<V>(p: ((string, V)) -> bool, es: seq<(string, V)>, k: string)
    ensures k in Keys(Filter(p, es)) <==> exists i :: 0 <= i < |es| && es[i].0 == k && p(es[i])
  {
    if k in Keys(Filter(p, es)) {
      var i := FilterKeysKept(p, es, k);
    }
    if exists i :: 0 <= i < |es| && es[i].0 == k && p(es[i]) {
      var i :| 0 <= i < |es| && es[i].0 == k && p(es[i]);
      FilterKeysPassing(p, es, i);
    }
  }

  /** What the map collected from the passing entries reads is a passing
   *  entry. */
  lemma FilterGet<V>(p: ((string, V)) -> bool, es: seq<(string, V)>, k: string)
    requires Get(FromPairs(Filter(p, es)), k).Some?
    ensures var v := Get(FromPairs(Filter(p, es)), k).value;
      (k, v) in es && p((k, v))
  {
    var kept := Filter(p, es);
    FromPairsContents(kept);
    LastValueIn(kept, k);
    FilterMembers(p, es, (k, LastValue(kept, k).value));
  }

  /** Pairs with distinct keys collect into a map where each key reads its
   *  own value. */
  lemma FromPairsEntry<V>(ps: seq<(string, V)>, i: nat)
    requires Distinct(Keys(ps)) && i < |ps|
    ensures Get(FromPairs(ps), ps[i].0) == Some(ps[i].1)
  {
    FromDistinctPairs(ps);
    GetEntry(ps, i);
  }
  /** `IndexMap::shift_remove`: the entry with key `k` is taken out and the
   *  entries after it move up one place. */
  function Remove<V>(m: IndexMap<V>, k: string): (r: IndexMap<V>)
    ensures |r| <= |m|
  {
    if m == [] then []
    else if m[0].0 == k then m[1..]
    else [m[0]] + Remove(m[1..], k)
  }

  /** Removing a key the map lacks changes nothing. */
  lemma {:induction false} RemoveAbsent<V>(m: IndexMap<V>, k: string)
    requires k !in Keys(m)
    ensures Remove(m, k) == m
  {
    if m != [] {
      assert Keys(m) == [m[0].0] + Keys(m[1..]);
      RemoveAbsent(m[1..], k);
    }
  }

  /** Removing the key of entry `i` cuts out exactly that entry: the others
   *  keep their order. */
  lemma {:induction false} RemoveAt<V>(m: IndexMap<V>, i: nat)
    requires Valid(m) && i < |m|
    ensures Remove(m, m[i].0) == m[..i] + m[i + 1..]
  {
    if i > 0 {
      assert Keys(m)[0] != Keys(m)[i];
      assert Keys(m[1..]) == Keys(m)[1..];
      RemoveAt(m[1..], i - 1);
      assert m[1..][i - 1].0 == m[i].0;
      assert m[1..][..i - 1] == m[1..i] && m[1..][i..] == m[i + 1..];
      assert [m[0]] + m[1..i] == m[..i];
    }
  }

  /** Cutting out entry `i` shifts the later entries down by one. */
  lemma Cut<V>(m: IndexMap<V>, i: nat)
    requires i < |m|
    ensures var r := m[..i] + m[i + 1..];
      |r| == |m| - 1 && forall j :: 0 <= j < |r| ==> r[j] == m[if j < i then j else j + 1]
  {
  }

  /** Cutting out one entry of a valid map leaves a valid map without its
   *  key. */
  lemma CutValid<V>(m: IndexMap<V>, i: nat)
    requires Valid(m) && i < |m|
    ensures Valid(m[..i] + m[i + 1..]) && m[i].0 !in Keys(m[..i] + m[i + 1..])
  {
    var r := m[..i] + m[i + 1..];
    Cut(m, i);
    forall a, b | 0 <= a < b < |r| ensures Keys(r)[a] != Keys(r)[b] {
      assert Keys(m)[if a < i then a else a + 1] != Keys(m)[if b < i then b else b + 1];
    }
    forall j | 0 <= j < |r| ensures Keys(r)[j] != m[i].0 {
      assert Keys(m)[if j < i then j else j + 1] != Keys(m)[i];
    }
  }

  /** Cutting out entry `i` of a valid map leaves entry `j` readable. */
  lemma CutGetEntry<V>(m: IndexMap<V>, i: nat, j: nat)
    requires Valid(m) && i < |m| && j < |m| && j != i
    ensures Get(m[..i] + m[i + 1..], m[j].0) == Some(m[j].1)
  {
    var r := m[..i] + m[i + 1..];
    var j' := if j < i then j else j - 1;
    assert r[j'] == m[j];
    CutValid(m, i);
    GetEntry(r, j');
  }

  /** Cutting out an entry adds no key. */
  lemma CutKeys<V>(m: IndexMap<V>, i: nat)
    requires i < |m|
    ensures Keys(m[..i] + m[i + 1..]) == Keys(m)[..i] + Keys(m)[i + 1..]
  {
    KeysAppend(m[..i], m[i + 1..]);
    assert Keys(m[..i]) == Keys(m)[..i];
    assert Keys(m[i + 1..]) == Keys(m)[i + 1..];
  }

  /** Cutting out entry `i` of a valid map leaves every other key reading
   *  as before. */
  lemma CutGet<V>(m: IndexMap<V>, i: nat, x: string)
    requires Valid(m) && i < |m| && x != m[i].0
    ensures Get(m[..i] + m[i + 1..], x) == Get(m, x)
  {
    if x in Keys(m) {
      var j :| 0 <= j < |m| && Keys(m)[j] == x;
      GetEntry(m, j);
      CutGetEntry(m, i, j);
    } else {
      CutKeys(m, i);
      var ks := Keys(m);
      assert ks == ks[..i] + ks[i..];
      assert ks[i..] == [ks[i]] + ks[i + 1..];
    }
  }

  /** After a removal the key reads nothing, every other key reads as before
   *  and the keys stay distinct. */
  lemma RemoveGet<V>(m: IndexMap<V>, k: string, x: string)
    requires Valid(m)
    ensures Valid(Remove(m, k))
    ensures Get(Remove(m, k), x) == if x == k then None else Get(m, x)
  {
    if k !in Keys(m) {
      RemoveAbsent(m, k);
    } else {
      var i :| 0 <= i < |m| && Keys(m)[i] == k;
      RemoveAt(m, i);
      CutValid(m, i);
      if x != k {
        CutGet(m, i, x);
      }
    }
  }

  /** The last value of `k` in `a + b` comes from `b` when `b` has the key. */
  lemma {:induction false} LastValueAppend<V>(a: seq<(string, V)>, b: seq<(string, V)>, k: string)
    ensures LastValue(a + b, k) == if k in Keys(b) then LastValue(b, k) else LastValue(a, k)
  {
    if b != [] {
      var init := b[..|b| - 1];
      assert (a + b)[..|a + b| - 1] == a + init;
      assert Keys(b) == Keys(init) + [b[|b| - 1].0];
      assert (a + b)[|a + b| - 1] == b[|b| - 1];
      LastValueAppend(a, init, k);
    } else {
      assert a + b == a;
    }
  }

  /** In a valid map the last value of a key is the one `get` reads. */
  lemma ValidLastValue<V>(m: IndexMap<V>, k: string)
    requires Valid(m)
    ensures LastValue(m, k) == Get(m, k)
  {
    FromDistinctPairs(m);
    FromPairsContents(m);
  }

  /** Inserting the entries of `es` one after another into `m`. */
  function InsertAll<V>(m: IndexMap<V>, es: seq<(string, V)>): IndexMap<V>
  {
    if es == [] then m
    else Insert(InsertAll(m, es[..|es| - 1]), es[|es| - 1].0, es[|es| - 1].1)
  }

  /** Inserting more pairs into a collected map is collecting all of them. */
  lemma {:induction false} InsertAllFromPairs<V>(ps: seq<(string, V)>, es: seq<(string, V)>)
    ensures InsertAll(FromPairs(ps), es) == FromPairs(ps + es)
  {
    if es != [] {
      var init := es[..|es| - 1];
      InsertAllFromPairs(ps, init);
      assert (ps + es)[..|ps + es| - 1] == ps + init;
      assert (ps + es)[|ps + es| - 1] == es[|es| - 1];
    } else {
      assert ps + es == ps;
    }
  }
  lemma KeysAppend<V>(a: seq<(string, V)>, b: seq<(string, V)>)
    ensures Keys(a + b) == Keys(a) + Keys(b)
  {
  }
}
