/**
 * `grouped[key(x)].append(x)` over a list, for any key function: the groups, and the fact
 * that the groups of distinct keys covering every element partition the list.
 */
module Grouping {

  /** The elements with key `k`, in list order: the list `grouped[k]` ends up holding. */
  function Group<T, K(==)>(xs: seq<T>, key: T -> K, k: K): (r: seq<T>)
    ensures |r| <= |xs|
    ensures forall x :: x in r ==> x in xs && key(x) == k
    decreases |xs|
  {
    if xs == [] then []
    else
      var n := |xs| - 1;
      Group(xs[..n], key, k) + (if key(xs[n]) == k then [xs[n]] else [])
  }

  /** The group of a key some element has is not empty. */
  lemma {:induction false} GroupNonEmpty<T, K>(xs: seq<T>, key: T -> K, j: nat)
    requires j < |xs|
    ensures Group(xs, key, key(xs[j])) != []
    decreases |xs|
  {
    var n := |xs| - 1;
    if j < n {
      GroupNonEmpty(xs[..n], key, j);
      assert xs[..n][j] == xs[j];
    }
  }

  /** The key of each element, in order. */
  function KeysOf<T, K>(xs: seq<T>, key: T -> K): (r: seq<K>)
    ensures |r| == |xs| && forall j :: 0 <= j < |xs| ==> r[j] == key(xs[j])
  {
    seq(|xs|, j requires 0 <= j < |xs| => key(xs[j]))
  }

  /** The total size of the groups of the keys `ks`. */
  function TotalSize<T, K(==)>(xs: seq<T>, key: T -> K, ks: seq<K>): nat
    decreases |ks|
  {
    if ks == [] then 0 else |Group(xs, key, ks[0])| + TotalSize(xs, key, ks[1..])
  }

  /** How many times `k` occurs in `ks`. */
  function Occurrences<K(==)>(ks: seq<K>, k: K): nat
    decreases |ks|
  {
    if ks == [] then 0 else (if ks[0] == k then 1 else 0) + Occurrences(ks[1..], k)
  }

  lemma {:induction false} TotalSizeSnoc<T, K>(xs: seq<T>, x: T, key: T -> K, ks: seq<K>)
    ensures TotalSize(xs + [x], key, ks) == TotalSize(xs, key, ks) + Occurrences(ks, key(x))
    decreases |ks|
  {
    assert (xs + [x])[..|xs|] == xs;
    if ks != [] {
      TotalSizeSnoc(xs, x, key, ks[1..]);
    }
  }

  lemma {:induction false} OccurrencesAbsent<K>(ks: seq<K>, k: K)
    requires k !in ks
    ensures Occurrences(ks, k) == 0
    decreases |ks|
  {
    if ks != [] {
      OccurrencesAbsent(ks[1..], k);
    }
  }

  lemma {:induction false} OccurrencesDistinct<K>(ks: seq<K>, k: K)
    requires forall i, j :: 0 <= i < j < |ks| ==> ks[i] != ks[j]
    requires k in ks
    ensures Occurrences(ks, k) == 1
    decreases |ks|
  {
    if ks[0] == k {
      assert k !in ks[1..];
      OccurrencesAbsent(ks[1..], k);
    } else {
      OccurrencesDistinct(ks[1..], k);
    }
  }

  lemma {:induction false} TotalSizeEmpty<T, K>(key: T -> K, ks: seq<K>)
    ensures TotalSize([], key, ks) == 0
    decreases |ks|
  {
    if ks != [] {
      TotalSizeEmpty(key, ks[1..]);
    }
  }

  /** Over distinct keys that cover every element, the group sizes add up to the length of the list. */
  lemma {:induction false} TotalSizeCovers<T, K>(xs: seq<T>, key: T -> K, ks: seq<K>)
    requires forall i, j :: 0 <= i < j < |ks| ==> ks[i] != ks[j]
    requires forall j :: 0 <= j < |xs| ==> key(xs[j]) in ks
    ensures TotalSize(xs, key, ks) == |xs|
    decreases |xs|
  {
    if xs == [] {
      TotalSizeEmpty(key, ks);
    } else {
      var n := |xs| - 1;
      TotalSizeCovers(xs[..n], key, ks);
      assert xs == xs[..n] + [xs[n]];
      TotalSizeSnoc(xs[..n], xs[n], key, ks);
      OccurrencesDistinct(ks, key(xs[n]));
    }
  }

  /** When every group of `ks` is non-empty, the total size is at least the number of keys. */
  lemma {:induction false} TotalSizeAtLeastCount<T, K>(xs: seq<T>, key: T -> K, ks: seq<K>)
    requires forall e :: 0 <= e < |ks| ==> |Group(xs, key, ks[e])| >= 1
    ensures TotalSize(xs, key, ks) >= |ks|
    decreases |ks|
  {
    if ks != [] {
      assert forall e :: 0 <= e < |ks[1..]| ==> ks[1..][e] == ks[e + 1];
      TotalSizeAtLeastCount(xs, key, ks[1..]);
    }
  }

  /** Growing the list by its next element grows that element's group by it and leaves the others alone. */
  lemma GroupSnoc<T, K>(xs: seq<T>, key: T -> K, i: nat, k: K)
    requires i < |xs|
    ensures Group(xs[..i + 1], key, k) == Group(xs[..i], key, k) + (if key(xs[i]) == k then [xs[i]] else [])
  {
    assert xs[..i + 1][..i] == xs[..i];
  }

  /** `grouped[k].append(x)` on a `defaultdict(list)`. */
  function Append<T, K>(grouped: map<K, seq<T>>, k: K, x: T): map<K, seq<T>>
  {
    if k in grouped then grouped[k := grouped[k] + [x]] else grouped[k := [x]]
  }

  /** The dict holds the non-empty groups of the first `i` elements, and no other keys. */
  ghost predicate GroupedUpTo<T, K(!new)>(grouped: map<K, seq<T>>, xs: seq<T>, key: T -> K, i: nat)
    requires i <= |xs|
  {
    (forall k :: k in grouped ==> grouped[k] == Group(xs[..i], key, k) && grouped[k] != [])
    && (forall k :: k !in grouped ==> Group(xs[..i], key, k) == [])
  }

  lemma GroupedStep<T, K(!new)>(grouped: map<K, seq<T>>, xs: seq<T>, key: T -> K, i: nat)
    requires i < |xs| && GroupedUpTo(grouped, xs, key, i)
    ensures GroupedUpTo(Append(grouped, key(xs[i]), xs[i]), xs, key, i + 1)
  {
    var k := key(xs[i]);
    var after := Append(grouped, k, xs[i]);
    forall k' | k' in after
      ensures after[k'] == Group(xs[..i + 1], key, k') && after[k'] != []
    {
      GroupSnoc(xs, key, i, k');
    }
    forall k' | k' !in after
      ensures Group(xs[..i + 1], key, k') == []
    {
      GroupSnoc(xs, key, i, k');
    }
  }

  /** Once every element is in, exactly the keys of the elements are present, each with its group. */
  lemma GroupedAll<T, K(!new)>(grouped: map<K, seq<T>>, xs: seq<T>, key: T -> K)
    requires GroupedUpTo(grouped, xs, key, |xs|)
    ensures forall k :: k in grouped <==> exists j :: 0 <= j < |xs| && key(xs[j]) == k
    ensures forall k :: k in grouped ==> grouped[k] == Group(xs, key, k)
  {
    assert xs[..|xs|] == xs;
    forall k
      ensures k in grouped <==> exists j :: 0 <= j < |xs| && key(xs[j]) == k
    {
      if k in grouped {
        assert grouped[k][0] in Group(xs, key, k);
      }
      if exists j :: 0 <= j < |xs| && key(xs[j]) == k {
        var j :| 0 <= j < |xs| && key(xs[j]) == k;
        GroupNonEmpty(xs, key, j);
      }
    }
  }

  /**
   * `grouped[key(x)].append(x)` for every element, into a dict: exactly the keys of the elements
   * are present, each holding its group; `seen` lists the keys in first-insertion order.
   */
  method GroupBy<T, K(!new)>(xs: seq<T>, key: T -> K) returns (grouped: map<K, seq<T>>, seen: seq<K>)
    ensures forall k :: k in grouped <==> exists j :: 0 <= j < |xs| && key(xs[j]) == k
    ensures forall k :: k in seen <==> k in grouped
    ensures forall k :: k in seen <==> k in KeysOf(xs, key)
    ensures forall k :: k in grouped ==> grouped[k] == Group(xs, key, k)
  {
    grouped := map[];
    seen := [];
    var i := 0;
    while i < |xs|
      invariant 0 <= i <= |xs|
      invariant forall k :: k in seen <==> k in grouped
      invariant GroupedUpTo(grouped, xs, key, i)
    {
      var k := key(xs[i]);
      GroupedStep(grouped, xs, key, i);
      if k in grouped {
        grouped := grouped[k := grouped[k] + [xs[i]]];
      } else {
        grouped := grouped[k := [xs[i]]];
        seen := seen + [k];
      }
      i := i + 1;
    }
    GroupedAll(grouped, xs, key);
    forall k | k in seen
      ensures k in KeysOf(xs, key)
    {
      var j :| 0 <= j < |xs| && key(xs[j]) == k;
      assert KeysOf(xs, key)[j] == k;
    }
  }
}
