/** Option and Result values shared by every module of the model. */
module Wrappers {
  datatype Option<T> = None | Some(value: T)
  {
    predicate IsSome() { Some? }

    function UnwrapOr(default: T): T
    {
      if Some? then value else default
    }
  }

  /** A recoverable error (`Err`) carries the fixed text of the message the
   *  source builds; where the source formats an error value into it with
   *  `{:?}` or `{:#?}`, the value's own text stands in for its Debug dump. A
   *  `panic!`/`expect`/`unwrap`/`unreachable!` failure in the source is an
   *  `Err` whose `panicked` flag is set, carrying the fixed text only. */
  datatype Result<T> = Ok(value: T) | Err(error: string, panicked: bool := false)

  /** The message of `Option::unwrap` on `None`. */
  const NoneUnwrapPanic: string := "called `Option::unwrap()` on a `None` value"

  function Panic<T>(msg: string): (r: Result<T>)
    ensures r.Err? && r.panicked
  {
    Err(msg, true)
  }

  predicate IsPanic<T>(r: Result<T>)
  {
    r.Err? && r.panicked
  }

  /** The outcome of a `Result` with its value dropped: what a function
   *  returning `()` reports. */
  function Discard<T>(r: Result<T>): (u: Result<()>)
    ensures u.Ok? <==> r.Ok?
    ensures u.Err? ==> u.error == r.error && u.panicked == r.panicked
  {
    if r.Ok? then Ok(()) else Err(r.error, r.panicked)
  }

  /** `xs.iter().map(f).collect::<Result<Vec<_>, _>>()`: every element
   *  mapped, or the error of the first element that fails. */
  function TryMap<A, B>(f: A -> Result<B>, xs: seq<A>): (r: Result<seq<B>>)
    ensures r.Ok? <==> forall i :: 0 <= i < |xs| ==> f(xs[i]).Ok?
    ensures r.Ok? ==> (|r.value| == |xs| && forall i :: 0 <= i < |xs| ==> r.value[i] == f(xs[i]).value)
    ensures r.Err? ==> exists i :: (0 <= i < |xs| && f(xs[i]).Err?
      && (forall j :: 0 <= j < i ==> f(xs[j]).Ok?) && r == Err(f(xs[i]).error, f(xs[i]).panicked))
  {
    if xs == [] then Ok([])
    else
      var first := f(xs[0]);
      if first.Err? then
        Err(first.error, first.panicked)
      else
        var rest := TryMap(f, xs[1..]);
        assert forall i :: 1 <= i < |xs| ==> xs[i] == xs[1..][i - 1];
        if rest.Err? then
          assert exists i :: (1 <= i < |xs| && f(xs[i]).Err?
            && (forall j :: 0 <= j < i ==> f(xs[j]).Ok?) && rest == Err(f(xs[i]).error, f(xs[i]).panicked)) by {
            var k :| 0 <= k < |xs[1..]| && f(xs[1..][k]).Err?
              && (forall j :: 0 <= j < k ==> f(xs[1..][j]).Ok?) && rest == Err(f(xs[1..][k]).error, f(xs[1..][k]).panicked);
            assert f(xs[k + 1]).Err?;
          }
          Err(rest.error, rest.panicked)
        else
          Ok([first.value] + rest.value)
  }

  /** The error `TryMap` reports is that of the first failing element. */
  lemma TryMapFirstFailure<A, B>(f: A -> Result<B>, xs: seq<A>, i: nat)
    requires i < |xs| && f(xs[i]).Err?
    requires forall j :: 0 <= j < i ==> f(xs[j]).Ok?
    ensures TryMap(f, xs) == Err(f(xs[i]).error, f(xs[i]).panicked)
  {
    var r := TryMap(f, xs);
    var k :| 0 <= k < |xs| && f(xs[k]).Err?
      && (forall j :: 0 <= j < k ==> f(xs[j]).Ok?) && r == Err(f(xs[k]).error, f(xs[k]).panicked);
  }

  /** When every element maps to a value, `TryMap` collects exactly those. */
  lemma TryMapAllOk<A, B>(f: A -> Result<B>, xs: seq<A>, ys: seq<B>)
    requires |ys| == |xs|
    requires forall i :: 0 <= i < |xs| ==> f(xs[i]).Ok? && ys[i] == f(xs[i]).value
    ensures TryMap(f, xs) == Ok(ys)
  {
    assert TryMap(f, xs).value == ys;
  }

  /** One more element collected onto a successful prefix. */
  lemma TryMapSnoc<A, B>(f: A -> Result<B>, xs: seq<A>, i: nat)
    requires i < |xs| && TryMap(f, xs[..i]).Ok? && f(xs[i]).Ok?
    ensures TryMap(f, xs[..i + 1]) == Ok(TryMap(f, xs[..i]).value + [f(xs[i]).value])
  {
    var ys := TryMap(f, xs[..i]).value + [f(xs[i]).value];
    forall j | 0 <= j < i + 1
      ensures f(xs[..i + 1][j]).Ok? && ys[j] == f(xs[..i + 1][j]).value
    {
      if j < i {
        assert xs[..i + 1][j] == xs[..i][j];
      }
    }
    TryMapAllOk(f, xs[..i + 1], ys);
  }

  /** A failing element after a successful prefix decides the outcome. */
  lemma TryMapStops<A, B>(f: A -> Result<B>, xs: seq<A>, i: nat)
    requires i < |xs| && TryMap(f, xs[..i]).Ok? && f(xs[i]).Err?
    ensures TryMap(f, xs) == Err(f(xs[i]).error, f(xs[i]).panicked)
  {
    forall j | 0 <= j < i ensures f(xs[j]).Ok? {
      assert xs[..i][j] == xs[j];
    }
    TryMapFirstFailure(f, xs, i);
  }

  /** One more successful element in front adds its value in front. */
  lemma TryMapCons<A, B>(f: A -> Result<B>, x: A, xs: seq<A>, ys: seq<B>)
    requires f(x).Ok? && TryMap(f, xs) == Ok(ys)
    ensures TryMap(f, [x] + xs) == Ok([f(x).value] + ys)
  {
    assert ([x] + xs)[1..] == xs;
  }
}
