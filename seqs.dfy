/** Sequence helpers shared by the services: filter-and-map, flattening and the minimum. */
module Seqs {
  import opened Wrappers

  /**
   * Keeps, in order, the images of the elements that `f` maps to `Some`:
   * the shape of a `for` loop that appends only for the records it accepts.
   */
  function FilterMap<A, B>(xs: seq<A>, f: A -> Option<B>): (ys: seq<B>)
    ensures |ys| <= |xs|
  {
    if xs == [] then []
    else FilterMap(xs[..|xs| - 1], f) + (match f(xs[|xs| - 1]) case Some(y) => [y] case None => [])
  }

  /** Filtering distributes over concatenation, so the output keeps input order. */
  lemma {:induction false} FilterMapAppend<A, B>(xs: seq<A>, ys: seq<A>, f: A -> Option<B>)
    ensures FilterMap(xs + ys, f) == FilterMap(xs, f) + FilterMap(ys, f)
    decreases |ys|
  {
    if ys != [] {
      var init := ys[..|ys| - 1];
      assert (xs + ys)[..|xs + ys| - 1] == xs + init;
      FilterMapAppend(xs, init, f);
    } else {
      assert xs + ys == xs;
    }
  }

  /** An element is in the output exactly when some input element maps to it. */
  lemma {:induction false} FilterMapMember<A, B>(xs: seq<A>, f: A -> Option<B>, y: B)
    ensures y in FilterMap(xs, f) <==> exists i :: 0 <= i < |xs| && f(xs[i]) == Some(y)
    decreases |xs|
  {
    if xs != [] {
      var init, last := xs[..|xs| - 1], xs[|xs| - 1];
      var tail := match f(last) case Some(z) => [z] case None => [];
      assert FilterMap(xs, f) == FilterMap(init, f) + tail;
      FilterMapMember(init, f, y);
      if y in FilterMap(init, f) {
        var i :| 0 <= i < |init| && f(init[i]) == Some(y);
        assert xs[i] == init[i];
      } else if y in tail {
        assert f(xs[|xs| - 1]) == Some(y);
      }
      if exists i :: 0 <= i < |xs| && f(xs[i]) == Some(y) {
        var i :| 0 <= i < |xs| && f(xs[i]) == Some(y);
        if i < |init| {
          assert f(init[i]) == Some(y);
        } else {
          assert tail == [y];
        }
      }
    }
  }

  /** The output is exactly as long as the number of accepted elements; all are accepted iff nothing is dropped. */
  lemma {:induction false} FilterMapAllAccepted<A, B>(xs: seq<A>, f: A -> Option<B>)
    requires forall i :: 0 <= i < |xs| ==> f(xs[i]).Some?
    ensures |FilterMap(xs, f)| == |xs|
    ensures forall i :: 0 <= i < |xs| ==> FilterMap(xs, f)[i] == f(xs[i]).value
    decreases |xs|
  {
    if xs != [] {
      var init := xs[..|xs| - 1];
      FilterMapAllAccepted(init, f);
    }
  }

  /** The smaller of two integers, for slice bounds. */
  function Min(a: int, b: int): int {
    if a <= b then a else b
  }

  /** Concatenation of a sequence of sequences, in order. */
  function Flatten<T>(xss: seq<seq<T>>): seq<T> {
    if xss == [] then [] else xss[0] + Flatten(xss[1..])
  }
}
