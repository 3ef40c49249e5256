/**
 * The leftmost position at which a test succeeds: the shape of a regular expression whose lazy
 * `.*?` prefix lets the first matching index win.
 */
module Search {

  import opened Wrappers

  /** The result of `at` at the first index in `p..n` where it yields one. */
  function FirstFrom<R>(n: nat, at: nat -> Option<R>, p: nat): Option<R>
    decreases n - p
  {
    if p > n then None
    else if at(p).Some? then at(p)
    else FirstFrom(n, at, p + 1)
  }

  /** Index `q` in `p..n` is the first there where `at` yields a result. */
  ghost predicate IsFirst<R>(n: nat, at: nat -> Option<R>, p: nat, q: nat)
  {
    p <= q <= n && at(q).Some? && forall q' :: p <= q' < q ==> at(q').None?
  }

  /** A search that fails saw no index succeed. */
  lemma {:induction false} FirstFromNone<R>(n: nat, at: nat -> Option<R>, p: nat)
    requires FirstFrom(n, at, p).None?
    ensures forall q :: p <= q <= n ==> at(q).None?
    decreases n - p
  {
    if p <= n {
      FirstFromNone(n, at, p + 1);
    }
  }

  /** A search that succeeds reports the result of the leftmost succeeding index. */
  lemma {:induction false} FirstFromWitness<R>(n: nat, at: nat -> Option<R>, p: nat) returns (q: nat)
    requires FirstFrom(n, at, p).Some?
    ensures IsFirst(n, at, p, q) && at(q) == FirstFrom(n, at, p)
    decreases n - p
  {
    if at(p).Some? {
      q := p;
    } else {
      q := FirstFromWitness(n, at, p + 1);
    }
  }
}
