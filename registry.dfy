/**
 * `d[key(x)] = val(x)` for every selected element of a list, in order, for any selection,
 * key and value: later elements overwrite earlier ones with the same key.
 */
module Registry {

  import opened Wrappers
  import opened PyValues

  /** The dict after visiting every element of `xs`. */
  function Register<T, V>(xs: seq<T>, keep: T -> bool, key: T -> string, val: T -> V): Dict<V>
    decreases |xs|
  {
    if xs == [] then []
    else
      var n := |xs| - 1;
      var d := Register(xs[..n], keep, key, val);
      if keep(xs[n]) then Put(d, key(xs[n]), val(xs[n])) else d
  }

  /** Element `c` is selected and no later selected element has its key. */
  ghost predicate IsLast<T>(xs: seq<T>, keep: T -> bool, key: T -> string, c: int)
  {
    0 <= c < |xs| && keep(xs[c])
    && forall c' :: c < c' < |xs| && keep(xs[c']) ==> key(xs[c']) != key(xs[c])
  }

  /** A key is present exactly when some selected element has it. */
  lemma {:induction false} RegisterHas<T, V>(xs: seq<T>, keep: T -> bool, key: T -> string, val: T -> V, k: string)
    ensures HasKey(Register(xs, keep, key, val), k) <==> exists c :: 0 <= c < |xs| && keep(xs[c]) && key(xs[c]) == k
    decreases |xs|
  {
    if xs != [] {
      var n := |xs| - 1;
      var init := xs[..n];
      RegisterHas(init, keep, key, val, k);
      if keep(xs[n]) {
        PutHasKey(Register(init, keep, key, val), key(xs[n]), val(xs[n]), k);
      }
      if HasKey(Register(init, keep, key, val), k) {
        var c :| 0 <= c < |init| && keep(init[c]) && key(init[c]) == k;
        assert init[c] == xs[c];
      }
      if exists c :: 0 <= c < |xs| && keep(xs[c]) && key(xs[c]) == k {
        var c :| 0 <= c < |xs| && keep(xs[c]) && key(xs[c]) == k;
        if c < n {
          assert init[c] == xs[c];
        }
      }
    }
  }

  /** An element that is last in a prefix stays last when the next element does not share its key. */
  lemma IsLastExtend<T>(xs: seq<T>, keep: T -> bool, key: T -> string, c: nat)
    requires 0 < |xs| && IsLast(xs[..|xs| - 1], keep, key, c)
    requires keep(xs[|xs| - 1]) ==> key(xs[|xs| - 1]) != key(xs[c])
    ensures IsLast(xs, keep, key, c)
  {
    var init := xs[..|xs| - 1];
    assert init[c] == xs[c];
    forall c' | c < c' < |xs| && keep(xs[c'])
      ensures key(xs[c']) != key(xs[c])
    {
      if c' < |init| {
        assert init[c'] == xs[c'];
      }
    }
  }

  /** Looking a key up after the last element, which does not store `k`, reads the prefix's dict. */
  lemma GetUnchanged<T, V>(xs: seq<T>, keep: T -> bool, key: T -> string, val: T -> V, k: string)
    requires 0 < |xs| && !(keep(xs[|xs| - 1]) && key(xs[|xs| - 1]) == k)
    ensures Get(Register(xs, keep, key, val), k) == Get(Register(xs[..|xs| - 1], keep, key, val), k)
  {
    var n := |xs| - 1;
    if keep(xs[n]) {
      PutGet(Register(xs[..n], keep, key, val), key(xs[n]), val(xs[n]));
    }
  }

  /** The last selected element with key `k`, which supplies the value stored under `k`. */
  lemma {:induction false} LastWitness<T, V>(xs: seq<T>, keep: T -> bool, key: T -> string, val: T -> V, k: string)
    returns (c: nat)
    requires HasKey(Register(xs, keep, key, val), k)
    ensures IsLast(xs, keep, key, c) && key(xs[c]) == k && Get(Register(xs, keep, key, val), k) == Some(val(xs[c]))
    decreases |xs|
  {
    var n := |xs| - 1;
    if keep(xs[n]) && key(xs[n]) == k {
      PutGet(Register(xs[..n], keep, key, val), key(xs[n]), val(xs[n]));
      c := n;
    } else {
      GetUnchanged(xs, keep, key, val, k);
      c := LastWitness(xs[..n], keep, key, val, k);
      assert xs[..n][c] == xs[c];
      IsLastExtend(xs, keep, key, c);
    }
  }

  /** A present key holds the value of the last selected element with that key. */
  lemma RegisterLast<T, V>(xs: seq<T>, keep: T -> bool, key: T -> string, val: T -> V, k: string)
    requires HasKey(Register(xs, keep, key, val), k)
    ensures exists c :: IsLast(xs, keep, key, c) && key(xs[c]) == k && Get(Register(xs, keep, key, val), k) == Some(val(xs[c]))
  {
    var c := LastWitness(xs, keep, key, val, k);
  }

  /** Every entry is the key and value of some selected element. */
  lemma {:induction false} RegisterEntry<T, V>(xs: seq<T>, keep: T -> bool, key: T -> string, val: T -> V, e: nat)
    requires e < |Register(xs, keep, key, val)|
    ensures exists i :: 0 <= i < |xs| && keep(xs[i]) && Register(xs, keep, key, val)[e] == (key(xs[i]), val(xs[i]))
    decreases |xs|
  {
    var n := |xs| - 1;
    var init := xs[..n];
    var prev := Register(init, keep, key, val);
    var d := Register(xs, keep, key, val);
    if keep(xs[n]) && d[e] == (key(xs[n]), val(xs[n])) {
    } else {
      var e': nat := e;
      if keep(xs[n]) {
        PutEntries(prev, key(xs[n]), val(xs[n]));
        e' :| 0 <= e' < |prev| && prev[e'] == d[e];
      }
      RegisterEntry(init, keep, key, val, e');
      var i :| 0 <= i < |init| && keep(init[i]) && prev[e'] == (key(init[i]), val(init[i]));
      assert init[i] == xs[i];
    }
  }

  /** Visiting one more element. */
  lemma RegisterSnoc<T, V>(xs: seq<T>, i: nat, keep: T -> bool, key: T -> string, val: T -> V)
    requires i < |xs|
    ensures Register(xs[..i + 1], keep, key, val)
      == (var d := Register(xs[..i], keep, key, val); if keep(xs[i]) then Put(d, key(xs[i]), val(xs[i])) else d)
  {
    assert xs[..i + 1][..i] == xs[..i];
  }

  /** The keys of the dict are distinct. */
  lemma {:induction false} RegisterDistinct<T, V>(xs: seq<T>, keep: T -> bool, key: T -> string, val: T -> V)
    ensures DistinctKeys(Register(xs, keep, key, val))
    decreases |xs|
  {
    if xs != [] {
      var n := |xs| - 1;
      RegisterDistinct(xs[..n], keep, key, val);
      if keep(xs[n]) {
        PutDistinct(Register(xs[..n], keep, key, val), key(xs[n]), val(xs[n]));
      }
    }
  }
}
