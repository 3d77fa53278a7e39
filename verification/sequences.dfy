/** `Iterator::filter_map` over a sequence, and where each of its results
    comes from. Discovery (both versions) and the `list` output are instances. */
module Sequences {
  import opened Results

  /** The present results of `f`, in the order of `xs`. */
  function FilterMap<A, B>(xs: seq<A>, f: A -> Option<B>): (r: seq<B>)
    ensures |r| <= |xs|
    ensures (exists i :: 0 <= i < |xs| && f(xs[i]).None?) ==> |r| < |xs|
    ensures forall i :: 0 <= i < |xs| && f(xs[i]).Some? ==> f(xs[i]).value in r
  {
    if |xs| == 0 then []
    else
      var rest := FilterMap(xs[1..], f);
      assert forall i :: 1 <= i < |xs| ==> xs[i] == xs[1..][i - 1];
      match f(xs[0])
      case None => rest
      case Some(y) => [y] + rest
  }

  /** Result `k` of the filter_map is what `f` gives for element `idx[k]`. */
  ghost predicate Maps<A, B>(xs: seq<A>, f: A -> Option<B>, idx: seq<nat>) {
    var r := FilterMap(xs, f);
    && |idx| == |r|
    && forall k :: 0 <= k < |idx| ==> idx[k] < |xs| && f(xs[idx[k]]) == Some(r[k])
  }

  ghost predicate Increasing(idx: seq<nat>) {
    forall k, l :: 0 <= k < l < |idx| ==> idx[k] < idx[l]
  }

  /** Every element for which `f` gives a result has its position in `idx`. */
  ghost predicate Covers<A, B>(xs: seq<A>, f: A -> Option<B>, idx: seq<nat>) {
    forall i :: 0 <= i < |xs| && f(xs[i]).Some? ==> i in idx
  }

  function Shift(idx: seq<nat>): (r: seq<nat>)
    ensures |r| == |idx| && forall k :: 0 <= k < |idx| ==> r[k] == idx[k] + 1
  {
    seq(|idx|, k requires 0 <= k < |idx| => idx[k] + 1)
  }

  /** The origins of a sequence, from those of its tail. */
  function Extend<A, B>(xs: seq<A>, f: A -> Option<B>, tail: seq<nat>): seq<nat>
    requires |xs| > 0
  {
    if f(xs[0]).Some? then [0] + Shift(tail) else Shift(tail)
  }

  lemma MapsStep<A, B>(xs: seq<A>, f: A -> Option<B>, tail: seq<nat>)
    requires |xs| > 0 && Maps(xs[1..], f, tail)
    ensures Maps(xs, f, Extend(xs, f, tail))
  {
    var r := FilterMap(xs, f);
    var rest := FilterMap(xs[1..], f);
    var shifted := Shift(tail);
    forall k | 0 <= k < |tail|
      ensures shifted[k] < |xs| && xs[shifted[k]] == xs[1..][tail[k]]
    {
    }
    if f(xs[0]).Some? {
      assert r == [f(xs[0]).value] + rest;
      var idx := [0] + shifted;
      forall k | 0 <= k < |idx|
        ensures idx[k] < |xs| && f(xs[idx[k]]) == Some(r[k])
      {
        if k > 0 {
          assert idx[k] == shifted[k - 1];
          assert r[k] == rest[k - 1];
        }
      }
    } else {
      assert r == rest;
    }
  }

  lemma IncreasingStep<A, B>(xs: seq<A>, f: A -> Option<B>, tail: seq<nat>)
    requires |xs| > 0 && Increasing(tail)
    ensures Increasing(Extend(xs, f, tail))
  {
  }

  lemma CoversStep<A, B>(xs: seq<A>, f: A -> Option<B>, tail: seq<nat>)
    requires |xs| > 0 && Covers(xs[1..], f, tail)
    ensures Covers(xs, f, Extend(xs, f, tail))
  {
    var shifted := Shift(tail);
    forall i | 1 <= i < |xs| && f(xs[i]).Some?
      ensures i in shifted
    {
      assert xs[1..][i - 1] == xs[i];
      var k :| 0 <= k < |tail| && tail[k] == i - 1;
      assert shifted[k] == i;
    }
  }

  /** For each result of the filter_map, the position of the element it comes from. */
  function Origins<A, B>(xs: seq<A>, f: A -> Option<B>): (idx: seq<nat>)
    ensures Maps(xs, f, idx)
    ensures Increasing(idx)
    ensures Covers(xs, f, idx)
  {
    if |xs| == 0 then []
    else
      var tail := Origins(xs[1..], f);
      MapsStep(xs, f, tail);
      IncreasingStep(xs, f, tail);
      CoversStep(xs, f, tail);
      Extend(xs, f, tail)
  }

  /** A result is in the filter_map exactly when `f` gives it for some element. */
  lemma Members<A, B>(xs: seq<A>, f: A -> Option<B>, y: B)
    ensures y in FilterMap(xs, f) <==> exists i :: 0 <= i < |xs| && f(xs[i]) == Some(y)
  {
    var r := FilterMap(xs, f);
    var idx := Origins(xs, f);
    if y in r {
      var k :| 0 <= k < |r| && r[k] == y;
      assert f(xs[idx[k]]) == Some(y);
    }
  }

  /** When `f` keeps every element as it is, the filter_map is the identity. */
  lemma {:induction false} KeepsAll<A>(xs: seq<A>, f: A -> Option<A>)
    requires forall i :: 0 <= i < |xs| ==> f(xs[i]) == Some(xs[i])
    ensures FilterMap(xs, f) == xs
    decreases |xs|
  {
    if |xs| > 0 {
      assert forall i :: 1 <= i < |xs| ==> xs[1..][i - 1] == xs[i];
      KeepsAll(xs[1..], f);
    }
  }
}
