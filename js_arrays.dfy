/**
 * The JavaScript array methods the storage layer relies on, as functions on
 * sequences with the callback as a total predicate: `findIndex`, `find`,
 * `some` and `filter`.
 */
module JsArrays {
  import opened Types

  /** `xs.findIndex(p)`: the first index satisfying `p`, or -1. */
  function FindIndex<T>(xs: seq<T>, p: T -> bool): (r: int)
    ensures -1 <= r < |xs|
    ensures r == -1 <==> forall k :: 0 <= k < |xs| ==> !p(xs[k])
    ensures 0 <= r ==> p(xs[r]) && forall k :: 0 <= k < r ==> !p(xs[k])
  {
    if xs == [] then -1
    else if p(xs[0]) then 0
    else
      var r := FindIndex(xs[1..], p);
      if r == -1 then -1 else r + 1
  }

  /** `xs.find(p)`, with `undefined` as `None`: the first element satisfying `p`. */
  function Find<T>(xs: seq<T>, p: T -> bool): Option<T> {
    var i := FindIndex(xs, p);
    if i < 0 then None else Some(xs[i])
  }

  /** `xs.some(p)` */
  function Any<T>(xs: seq<T>, p: T -> bool): (r: bool)
    ensures r <==> exists k :: 0 <= k < |xs| && p(xs[k])
  {
    if xs == [] then false else p(xs[0]) || Any(xs[1..], p)
  }

  /** `xs.filter(p)` */
  function Filter<T>(xs: seq<T>, p: T -> bool): (r: seq<T>)
    ensures |r| <= |xs|
    ensures forall k :: 0 <= k < |r| ==> r[k] in xs && p(r[k])
    ensures forall k :: 0 <= k < |xs| && p(xs[k]) ==> xs[k] in r
  {
    if xs == [] then []
    else
      var rest := Filter(xs[1..], p);
      assert forall k :: 1 <= k < |xs| ==> xs[k] == xs[1..][k - 1];
      if p(xs[0]) then [xs[0]] + rest else rest
  }

  // ---------------------------------------------------------------------
  // Lemmas

  /** `find` returns nothing exactly when nothing satisfies `p`, and otherwise the element at `findIndex`. */
  lemma FindIsFirst<T>(xs: seq<T>, p: T -> bool)
    ensures Find(xs, p).None? <==> forall k :: 0 <= k < |xs| ==> !p(xs[k])
    ensures Find(xs, p).Some? ==> 0 <= FindIndex(xs, p) && Find(xs, p).value == xs[FindIndex(xs, p)]
    ensures Find(xs, p).Some? ==> Find(xs, p).value in xs && p(Find(xs, p).value)
  {
  }

  /** Filtering keeps the length exactly when every element passes. */
  lemma {:induction false} FilterLength<T>(xs: seq<T>, p: T -> bool)
    ensures |Filter(xs, p)| == |xs| <==> forall k :: 0 <= k < |xs| ==> p(xs[k])
  {
    if xs != [] {
      FilterLength(xs[1..], p);
      assert forall k :: 1 <= k < |xs| ==> xs[k] == xs[1..][k - 1];
    }
  }

  /** Filtering keeps the order: it distributes over concatenation. */
  lemma {:induction false} FilterAppend<T>(xs: seq<T>, ys: seq<T>, p: T -> bool)
    ensures Filter(xs + ys, p) == Filter(xs, p) + Filter(ys, p)
  {
    if xs == [] {
      assert xs + ys == ys;
    } else {
      assert (xs + ys)[1..] == xs[1..] + ys;
      FilterAppend(xs[1..], ys, p);
    }
  }

  /** Replacing the first match by another match makes `find` return the replacement. */
  lemma FindAfterReplace<T>(xs: seq<T>, p: T -> bool, x: T)
    requires 0 <= FindIndex(xs, p) && p(x)
    ensures Find(xs[FindIndex(xs, p) := x], p) == Some(x)
  {
    var i := FindIndex(xs, p);
    var ys := xs[i := x];
    assert forall k :: 0 <= k < i ==> ys[k] == xs[k];
    assert p(ys[i]);
    assert FindIndex(ys, p) == i;
  }

  /** Replacing an element that fails `q` by another that fails it does not change what `find` returns. */
  lemma FindOtherAfterReplace<T>(xs: seq<T>, i: int, x: T, q: T -> bool)
    requires 0 <= i < |xs| && !q(xs[i]) && !q(x)
    ensures Find(xs[i := x], q) == Find(xs, q)
  {
    var ys := xs[i := x];
    assert forall k :: 0 <= k < |xs| ==> (q(ys[k]) <==> q(xs[k]));
    var a, b := FindIndex(ys, q), FindIndex(xs, q);
    if a != -1 && b != -1 {
      assert a == b;
      assert ys[a] == xs[b];
    }
  }

  /** Appending a match to a list without one makes `find` return it. */
  lemma FindAppendHit<T>(xs: seq<T>, x: T, p: T -> bool)
    requires (forall k :: 0 <= k < |xs| ==> !p(xs[k])) && p(x)
    ensures Find(xs + [x], p) == Some(x)
  {
    var ys := xs + [x];
    assert forall k :: 0 <= k < |xs| ==> ys[k] == xs[k];
    assert p(ys[|xs|]);
    assert FindIndex(ys, p) == |xs|;
  }

  /** Appending a non-match does not change what `find` returns. */
  lemma FindAppendMiss<T>(xs: seq<T>, x: T, p: T -> bool)
    requires !p(x)
    ensures Find(xs + [x], p) == Find(xs, p)
  {
    var ys := xs + [x];
    assert forall k :: 0 <= k < |xs| ==> ys[k] == xs[k];
    assert !p(ys[|xs|]);
    var a, b := FindIndex(ys, p), FindIndex(xs, p);
    if a != -1 && b != -1 {
      assert a == b;
    }
  }
}
