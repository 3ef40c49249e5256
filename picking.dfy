/**
 * A scan that keeps what a test picks out of each element, in order: the shape of
 * `for x in xs: if <test>: out.append(<value>)`.
 */
module Picking {

  import opened Wrappers

  /** The values `f` picks out of `xs`, in order. */
  function Pick<T, R>(xs: seq<T>, f: T -> Option<R>): (r: seq<R>)
    ensures |r| <= |xs|
    decreases |xs|
  {
    if xs == [] then []
    else
      var n := |xs| - 1;
      Pick(xs[..n], f) + (match f(xs[n]) case Some(v) => [v] case None => [])
  }

  /** Scanning one more element. */
  lemma PickSnoc<T, R>(xs: seq<T>, i: nat, f: T -> Option<R>)
    requires i < |xs|
    ensures Pick(xs[..i + 1], f) == Pick(xs[..i], f) + (match f(xs[i]) case Some(v) => [v] case None => [])
  {
    assert xs[..i + 1][..i] == xs[..i];
  }

  /** A value is picked exactly when some element yields it. */
  lemma {:induction false} PickMember<T, R>(xs: seq<T>, f: T -> Option<R>, v: R)
    ensures v in Pick(xs, f) <==> exists i :: 0 <= i < |xs| && f(xs[i]) == Some(v)
    decreases |xs|
  {
    if xs != [] {
      var n := |xs| - 1;
      PickMember(xs[..n], f, v);
      if v in Pick(xs[..n], f) {
        var i :| 0 <= i < n && f(xs[..n][i]) == Some(v);
        assert f(xs[i]) == Some(v);
      }
      if exists i :: 0 <= i < |xs| && f(xs[i]) == Some(v) {
        var i :| 0 <= i < |xs| && f(xs[i]) == Some(v);
        if i < n {
          assert xs[..n][i] == xs[i];
        }
      }
    }
  }

  /** Picking from a concatenation picks from each side in turn. */
  lemma {:induction false} PickAppend<T, R>(xs: seq<T>, ys: seq<T>, f: T -> Option<R>)
    ensures Pick(xs + ys, f) == Pick(xs, f) + Pick(ys, f)
    decreases |ys|
  {
    if ys == [] {
      assert xs + ys == xs;
    } else {
      var n := |ys| - 1;
      PickAppend(xs, ys[..n], f);
      assert (xs + ys)[..|xs + ys| - 1] == xs + ys[..n];
    }
  }

  /** Nothing is picked when no element yields a value. */
  lemma {:induction false} PickNone<T, R>(xs: seq<T>, f: T -> Option<R>)
    requires forall i :: 0 <= i < |xs| ==> f(xs[i]).None?
    ensures Pick(xs, f) == []
    decreases |xs|
  {
    if xs != [] {
      PickNone(xs[..|xs| - 1], f);
    }
  }
}
