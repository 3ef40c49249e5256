/**
 * Python's `collections.Counter` over a list: how often each element occurs, the counting
 * loop `counter[x] += 1`, and `most_common(n)`, which lists the `n` most frequent elements
 * by descending count, ties in the order the elements were first seen.
 */
module Counting {

  import opened Sorting

  /** `Counter(xs)[x]`: the number of occurrences of `x` in `xs`. */
  function Count<T(==)>(xs: seq<T>, x: T): (r: nat)
    ensures r > 0 <==> x in xs
    ensures r <= |xs|
    decreases |xs|
  {
    if xs == [] then 0
    else
      var n := |xs| - 1;
      assert xs == xs[..n] + [xs[n]];
      Count(xs[..n], x) + (if xs[n] == x then 1 else 0)
  }

  /** The position where `x` occurs first. */
  function FirstIndex<T(==)>(xs: seq<T>, x: T): (r: nat)
    requires x in xs
    ensures r < |xs| && xs[r] == x
    ensures forall k :: 0 <= k < r ==> xs[k] != x
  {
    if xs[0] == x then 0
    else
      var r := 1 + FirstIndex(xs[1..], x);
      assert forall k :: 1 <= k < r ==> xs[k] == xs[1..][k - 1];
      r
  }

  /** Counting one more element. */
  lemma CountSnoc<T>(xs: seq<T>, i: nat, x: T)
    requires i < |xs|
    ensures Count(xs[..i + 1], x) == Count(xs[..i], x) + (if xs[i] == x then 1 else 0)
  {
    assert xs[..i + 1][..i] == xs[..i];
  }

  /** The counting loop `for x in xs: counter[x] += 1`. */
  method Tally<T(==)>(xs: seq<T>) returns (counter: map<T, nat>)
    ensures forall x :: x in counter <==> x in xs
    ensures forall x :: x in counter ==> counter[x] == Count(xs, x)
  {
    counter := map[];
    for i := 0 to |xs|
      invariant forall x :: x in counter <==> x in xs[..i]
      invariant forall x :: x in counter ==> counter[x] == Count(xs[..i], x)
    {
      forall x
        ensures Count(xs[..i + 1], x) == Count(xs[..i], x) + (if xs[i] == x then 1 else 0)
      {
        CountSnoc(xs, i, x);
      }
      assert xs[..i + 1] == xs[..i] + [xs[i]];
      var c := if xs[i] in counter then counter[xs[i]] else 0;
      counter := counter[xs[i] := c + 1];
    }
    assert xs[..|xs|] == xs;
  }

  // ---------------------------------------------------------------- most_common

  /** The rank of an element, (count, first index): higher counts first, then earlier first sightings. */
  predicate RankLt(a: (int, int), b: (int, int))
  {
    a.0 > b.0 || (a.0 == b.0 && a.1 < b.1)
  }

  lemma RankLtIsOrder()
    ensures StrictTotalOrder(RankLt)
  {
  }

  /** The rank of every element of `xs`, with repeats. */
  function Ranks<T(==)>(xs: seq<T>): (r: seq<(int, int)>)
    ensures |r| == |xs|
  {
    seq(|xs|, i requires 0 <= i < |xs| => (Count(xs, xs[i]) as int, FirstIndex(xs, xs[i]) as int))
  }

  /** The distinct ranks in `most_common` order. */
  function Ranked<T(==)>(xs: seq<T>): (r: seq<(int, int)>)
    ensures StrictlySorted(r, RankLt)
  {
    RankLtIsOrder();
    SortedSet(Ranks(xs), RankLt)
  }

  /** Each ranked entry names the first sighting of an element, with that element's count. */
  lemma RankedEntry<T>(xs: seq<T>, j: nat)
    requires j < |Ranked(xs)|
    ensures 0 <= Ranked(xs)[j].1 < |xs|
    ensures FirstIndex(xs, xs[Ranked(xs)[j].1]) == Ranked(xs)[j].1
    ensures Ranked(xs)[j].0 == Count(xs, xs[Ranked(xs)[j].1])
  {
    var r := Ranked(xs)[j];
    assert r in Ranks(xs);
    var i :| 0 <= i < |xs| && Ranks(xs)[i] == r;
    assert xs[FirstIndex(xs, xs[i])] == xs[i];
  }

  /** The element and count of the `j`-th ranked entry. */
  function EntryAt<T(==)>(xs: seq<T>, j: nat): (T, nat)
    requires j < |Ranked(xs)|
  {
    RankedEntry(xs, j);
    var r := Ranked(xs)[j];
    (xs[r.1], r.0 as nat)
  }

  /** `Counter(xs).most_common(n)` */
  function MostCommon<T(==)>(xs: seq<T>, n: nat): seq<(T, nat)>
  {
    var m := if n < |Ranked(xs)| then n else |Ranked(xs)|;
    seq(m, j requires 0 <= j < m => EntryAt(xs, j))
  }

  /** The elements of `most_common(n)` only. */
  function MostCommonKeys<T(==)>(xs: seq<T>, n: nat): (r: seq<T>)
    ensures |r| == |MostCommon(xs, n)|
  {
    var mc := MostCommon(xs, n);
    seq(|mc|, j requires 0 <= j < |mc| => mc[j].0)
  }

  /** At most `n` entries, each an element of `xs` paired with its count. */
  lemma MostCommonCounts<T>(xs: seq<T>, n: nat)
    ensures |MostCommon(xs, n)| <= n
    ensures forall j :: 0 <= j < |MostCommon(xs, n)| ==>
      MostCommon(xs, n)[j].0 in xs && MostCommon(xs, n)[j].1 == Count(xs, MostCommon(xs, n)[j].0)
  {
    forall j | 0 <= j < |MostCommon(xs, n)|
      ensures MostCommon(xs, n)[j].0 in xs && MostCommon(xs, n)[j].1 == Count(xs, MostCommon(xs, n)[j].0)
    {
      RankedEntry(xs, j);
    }
  }

  /** No element is listed twice. */
  lemma MostCommonDistinct<T>(xs: seq<T>, n: nat)
    ensures forall j, l :: 0 <= j < l < |MostCommon(xs, n)| ==> MostCommon(xs, n)[j].0 != MostCommon(xs, n)[l].0
  {
    var mc := MostCommon(xs, n);
    var s := Ranked(xs);
    forall j, l | 0 <= j < l < |mc|
      ensures mc[j].0 != mc[l].0
    {
      RankedEntry(xs, j);
      RankedEntry(xs, l);
      assert RankLt(s[j], s[l]);
    }
  }

  /** Descending counts; equal counts keep the order of first sighting. */
  lemma MostCommonOrder<T>(xs: seq<T>, n: nat)
    ensures forall j, l :: 0 <= j < l < |MostCommon(xs, n)| ==>
      var a := MostCommon(xs, n)[j];
      var b := MostCommon(xs, n)[l];
      a.1 > b.1 || (a.1 == b.1 && a.0 in xs && b.0 in xs && FirstIndex(xs, a.0) < FirstIndex(xs, b.0))
  {
    var mc := MostCommon(xs, n);
    var s := Ranked(xs);
    forall j, l | 0 <= j < l < |mc|
      ensures mc[j].1 > mc[l].1 || (mc[j].1 == mc[l].1 && mc[j].0 in xs && mc[l].0 in xs
        && FirstIndex(xs, mc[j].0) < FirstIndex(xs, mc[l].0))
    {
      RankedEntry(xs, j);
      RankedEntry(xs, l);
      assert RankLt(s[j], s[l]);
    }
  }

  /** The `p`-th listed element is the element of the `p`-th rank. */
  lemma ListedAt<T>(xs: seq<T>, n: nat, p: nat)
    requires p < |MostCommon(xs, n)|
    ensures 0 <= Ranked(xs)[p].1 < |xs| && MostCommonKeys(xs, n)[p] == xs[Ranked(xs)[p].1]
  {
    RankedEntry(xs, p);
  }

  /**
   * An element left out is outranked by every listed one, and is left out only because the list
   * already holds `n` entries: with fewer than `n` entries every element of `xs` is listed.
   */
  lemma MostCommonTop<T>(xs: seq<T>, n: nat, x: T)
    requires x in xs && x !in MostCommonKeys(xs, n)
    ensures |MostCommon(xs, n)| == n
    ensures forall j :: 0 <= j < n ==>
      MostCommon(xs, n)[j].1 > Count(xs, x)
      || (MostCommon(xs, n)[j].1 == Count(xs, x) && MostCommon(xs, n)[j].0 in xs
          && FirstIndex(xs, MostCommon(xs, n)[j].0) < FirstIndex(xs, x))
  {
    var mc := MostCommon(xs, n);
    var s := Ranked(xs);
    var i := FirstIndex(xs, x);
    var rank := (Count(xs, x) as int, i as int);
    assert Ranks(xs)[i] == rank;
    assert rank in s;
    var p: nat :| p < |s| && s[p] == rank;
    if p < |mc| {
      ListedAt(xs, n, p);
      assert false;
    }
    forall j | 0 <= j < |mc|
      ensures mc[j].1 > Count(xs, x) || (mc[j].1 == Count(xs, x) && mc[j].0 in xs && FirstIndex(xs, mc[j].0) < FirstIndex(xs, x))
    {
      RankedEntry(xs, j);
      assert RankLt(s[j], s[p]);
    }
  }
}
