/** In-order merges of two sequences. */
module Interleaving {
  /** The elements of `all` that the mask marks with `side`, in order. */
  function Side<T>(all: seq<T>, mask: seq<bool>, side: bool): seq<T>
    requires |mask| == |all|
  {
    if all == [] then []
    else
      var n := |all| - 1;
      Side(all[..n], mask[..n], side) + if mask[n] == side then [all[n]] else []
  }

  predicate Splits<T(==)>(all: seq<T>, mask: seq<bool>, a: seq<T>, b: seq<T>) {
    |mask| == |all| && Side(all, mask, true) == a && Side(all, mask, false) == b
  }

  /** `all` consists of the elements of `a` and of `b`, each in their own order. */
  ghost predicate Merged<T>(all: seq<T>, a: seq<T>, b: seq<T>) {
    exists mask :: Splits(all, mask, a, b)
  }

  lemma {:induction false} SidesAddUp<T>(all: seq<T>, mask: seq<bool>)
    requires |mask| == |all|
    ensures |Side(all, mask, true)| + |Side(all, mask, false)| == |all|
    ensures Side(all, mask, false) == [] ==> Side(all, mask, true) == all
  {
    if all != [] {
      var n := |all| - 1;
      SidesAddUp(all[..n], mask[..n]);
      assert all == all[..n] + [all[n]];
    }
  }

  lemma {:induction false} SideMore<T>(
      all: seq<T>, mask: seq<bool>, x: seq<T>, more: seq<bool>, side: bool, mark: bool)
    requires |mask| == |all| && |more| == |x| && forall i :: 0 <= i < |more| ==> more[i] == mark
    ensures Side(all + x, mask + more, side) == Side(all, mask, side) + if mark == side then x else []
    decreases |x|
  {
    if x == [] {
      assert all + x == all && mask + more == mask;
    } else {
      var n := |x| - 1;
      SideMore(all, mask, x[..n], more[..n], side, mark);
      assert (all + x)[..|all + x| - 1] == all + x[..n];
      assert (mask + more)[..|all + x| - 1] == mask + more[..n];
      assert x == x[..n] + [x[n]];
    }
  }

  lemma MergedLength<T>(all: seq<T>, a: seq<T>, b: seq<T>)
    requires Merged(all, a, b)
    ensures |all| == |a| + |b|
    ensures all == a <==> b == []
  {
    hide Side;
    var mask :| Splits(all, mask, a, b);
    SidesAddUp(all, mask);
  }

  lemma MergedMore<T>(all: seq<T>, a: seq<T>, b: seq<T>, x: seq<T>)
    requires Merged(all, a, b)
    ensures Merged(all + x, a + x, b) && Merged(all + x, a, b + x)
  {
    hide Side;
    var mask :| Splits(all, mask, a, b);
    var left, right := seq(|x|, _ => true), seq(|x|, _ => false);
    SideMore(all, mask, x, left, true, true);
    SideMore(all, mask, x, left, false, true);
    SideMore(all, mask, x, right, true, false);
    SideMore(all, mask, x, right, false, false);
    assert a + [] == a && b + [] == b;
    assert Splits(all + x, mask + left, a + x, b);
    assert Splits(all + x, mask + right, a, b + x);
  }

  lemma NothingMerged<T>()
    ensures Merged<T>([], [], [])
  {
    assert Splits<T>([], [], [], []);
  }

  /** The same, with a tail that belongs to neither yet. */
  ghost predicate MergedThen<T>(all: seq<T>, a: seq<T>, b: seq<T>, tail: seq<T>) {
    && |tail| <= |all| && all[|all| - |tail|..] == tail
    && Merged(all[..|all| - |tail|], a, b)
  }

  lemma ThenMore<T>(all: seq<T>, a: seq<T>, b: seq<T>, tail: seq<T>, x: seq<T>)
    requires MergedThen(all, a, b, tail)
    ensures MergedThen(all + x, a, b, tail + x)
  {
    hide Merged;
    var n := |all| - |tail|;
    assert (all + x)[..n] == all[..n];
    assert (all + x)[n..] == all[n..] + x;
  }

  lemma ThenSettled<T>(all: seq<T>, a: seq<T>, b: seq<T>, tail: seq<T>)
    requires MergedThen(all, a, b, tail)
    ensures MergedThen(all, a + tail, b, []) && MergedThen(all, a, b + tail, [])
  {
    hide Merged;
    var before := all[..|all| - |tail|];
    MergedMore(before, a, b, tail);
    assert all == before + tail;
    assert all[..|all|] == all;
  }

  lemma ThenNothing<T>(all: seq<T>, a: seq<T>, b: seq<T>)
    requires MergedThen(all, a, b, [])
    ensures |all| == |a| + |b| && (all == a <==> b == [])
  {
    hide Merged;
    assert all[..|all|] == all;
    MergedLength(all, a, b);
  }
}
