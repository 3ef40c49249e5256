/**
 * A scan that keeps, for each name, only the first item picked: the shape of
 * `if name not in seen: seen.add(name); results.append(...)` over a list of inputs.
 */
module FirstWins {

  import opened Wrappers

  /** The names of the items, in order. */
  function NamesOf<R>(rs: seq<R>, name: R -> string): (r: seq<string>)
    ensures |r| == |rs| && forall i :: 0 <= i < |rs| ==> r[i] == name(rs[i])
  {
    seq(|rs|, i requires 0 <= i < |rs| => name(rs[i]))
  }

  /** The items `pick` yields for `xs`, skipping any whose name an earlier item already had. */
  function Collect<T, R>(xs: seq<T>, pick: T -> Option<R>, name: R -> string): seq<R>
    decreases |xs|
  {
    if xs == [] then []
    else
      var n := |xs| - 1;
      var prev := Collect(xs[..n], pick, name);
      match pick(xs[n])
      case Some(r) => if name(r) in NamesOf(prev, name) then prev else prev + [r]
      case None => prev
  }

  /** Element `i` yields an item and no earlier element yields one with the same name. */
  ghost predicate FirstWithName<T, R>(xs: seq<T>, pick: T -> Option<R>, name: R -> string, i: int)
  {
    0 <= i < |xs| && pick(xs[i]).Some?
    && forall j :: 0 <= j < i && pick(xs[j]).Some? ==> name(pick(xs[j]).value) != name(pick(xs[i]).value)
  }

  /** Scanning one more element. */
  lemma CollectSnoc<T, R>(xs: seq<T>, i: nat, pick: T -> Option<R>, name: R -> string)
    requires i < |xs|
    ensures Collect(xs[..i + 1], pick, name)
      == (var prev := Collect(xs[..i], pick, name);
          match pick(xs[i])
          case Some(r) => if name(r) in NamesOf(prev, name) then prev else prev + [r]
          case None => prev)
  {
    assert xs[..i + 1][..i] == xs[..i];
  }

  /** No two items share a name. */
  ghost predicate DistinctNames<R>(rs: seq<R>, name: R -> string)
  {
    forall a, b :: 0 <= a < b < |rs| ==> name(rs[a]) != name(rs[b])
  }

  /** The kept names are distinct. */
  lemma {:induction false} CollectDistinct<T, R>(xs: seq<T>, pick: T -> Option<R>, name: R -> string)
    ensures DistinctNames(Collect(xs, pick, name), name)
    decreases |xs|
  {
    if xs != [] {
      var n := |xs| - 1;
      var prev := Collect(xs[..n], pick, name);
      CollectDistinct(xs[..n], pick, name);
      var rs := Collect(xs, pick, name);
      forall a, b | 0 <= a < b < |rs|
        ensures name(rs[a]) != name(rs[b])
      {
        assert rs == prev || (pick(xs[n]).Some? && rs == prev + [pick(xs[n]).value] && name(rs[|prev|]) !in NamesOf(prev, name));
        if b < |prev| {
          assert rs[a] == prev[a] && rs[b] == prev[b];
        } else {
          assert rs[a] == prev[a];
          assert NamesOf(prev, name)[a] == name(rs[a]);
        }
      }
    }
  }

  /** A name is kept exactly when some element yields an item with that name. */
  lemma {:induction false} CollectNames<T, R>(xs: seq<T>, pick: T -> Option<R>, name: R -> string, s: string)
    ensures s in NamesOf(Collect(xs, pick, name), name)
      <==> exists i :: 0 <= i < |xs| && pick(xs[i]).Some? && name(pick(xs[i]).value) == s
    decreases |xs|
  {
    if xs != [] {
      var n := |xs| - 1;
      var prev := Collect(xs[..n], pick, name);
      CollectNames(xs[..n], pick, name, s);
      assert forall i :: 0 <= i < n ==> xs[..n][i] == xs[i];
      var rs := Collect(xs, pick, name);
      if pick(xs[n]).Some? && name(pick(xs[n]).value) !in NamesOf(prev, name) {
        assert NamesOf(rs, name) == NamesOf(prev, name) + [name(pick(xs[n]).value)];
      }
    }
  }

  /** Nothing is kept exactly when no element yields an item. */
  lemma CollectEmpty<T, R>(xs: seq<T>, pick: T -> Option<R>, name: R -> string)
    ensures Collect(xs, pick, name) == [] <==> forall i :: 0 <= i < |xs| ==> pick(xs[i]).None?
  {
    if Collect(xs, pick, name) != [] {
      var rs := Collect(xs, pick, name);
      CollectNames(xs, pick, name, name(rs[0]));
      assert NamesOf(rs, name)[0] == name(rs[0]);
    }
    if exists i :: 0 <= i < |xs| && pick(xs[i]).Some? {
      var i :| 0 <= i < |xs| && pick(xs[i]).Some?;
      CollectNames(xs, pick, name, name(pick(xs[i]).value));
    }
  }

  /** Every kept item is the one yielded by the first element whose item has its name. */
  lemma {:induction false} CollectFirst<T, R>(xs: seq<T>, pick: T -> Option<R>, name: R -> string, a: nat)
    requires a < |Collect(xs, pick, name)|
    ensures exists i :: FirstWithName(xs, pick, name, i) && pick(xs[i]) == Some(Collect(xs, pick, name)[a])
    decreases |xs|
  {
    var n := |xs| - 1;
    var prev := Collect(xs[..n], pick, name);
    var rs := Collect(xs, pick, name);
    if a < |prev| {
      assert rs[a] == prev[a];
      CollectFirst(xs[..n], pick, name, a);
      var i :| FirstWithName(xs[..n], pick, name, i) && pick(xs[..n][i]) == Some(prev[a]);
      assert xs[..n][i] == xs[i];
      forall j | 0 <= j < i && pick(xs[j]).Some?
        ensures name(pick(xs[j]).value) != name(pick(xs[i]).value)
      {
        assert xs[..n][j] == xs[j];
      }
      assert FirstWithName(xs, pick, name, i);
    } else {
      var r := pick(xs[n]).value;
      assert rs[a] == r && name(r) !in NamesOf(prev, name);
      forall j | 0 <= j < n && pick(xs[j]).Some?
        ensures name(pick(xs[j]).value) != name(r)
      {
        assert xs[..n][j] == xs[j];
        CollectNames(xs[..n], pick, name, name(pick(xs[j]).value));
      }
      assert FirstWithName(xs, pick, name, n);
    }
  }
}
