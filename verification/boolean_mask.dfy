/** numpy's boolean indexing `xs[mask]`: the entries of `xs` at the positions
    where `mask` is true, in their original order. */
module BooleanMask {

  /** The positions where `mask` is true, in increasing order (numpy's `nonzero`). */
  function TruePositions(mask: seq<bool>): (ps: seq<nat>)
    ensures forall j :: 0 <= j < |ps| ==> ps[j] < |mask| && mask[ps[j]]
    ensures forall j, k :: 0 <= j < k < |ps| ==> ps[j] < ps[k]
    ensures forall i :: 0 <= i < |mask| && mask[i] ==> i in ps
  {
    if mask == [] then []
    else
      var init := TruePositions(mask[..|mask| - 1]);
      if mask[|mask| - 1] then init + [|mask| - 1] else init
  }

  /** `xs[mask]`: entry j of the result is the entry of `xs` at the j-th true position. */
  function Select<T>(xs: seq<T>, mask: seq<bool>): (r: seq<T>)
    requires |xs| == |mask|
    ensures |r| == |TruePositions(mask)|
    ensures forall j :: 0 <= j < |r| ==> r[j] == xs[TruePositions(mask)[j]]
  {
    if xs == [] then []
    else
      var init := Select(xs[..|xs| - 1], mask[..|mask| - 1]);
      if mask[|mask| - 1] then init + [xs[|xs| - 1]] else init
  }

  predicate NonDecreasing(xs: seq<int>) {
    forall j, k :: 0 <= j < k < |xs| ==> xs[j] <= xs[k]
  }

  /** Boolean indexing keeps the relative order, so a sorted array stays sorted. */
  lemma SelectKeepsOrder(xs: seq<int>, mask: seq<bool>)
    requires |xs| == |mask|
    requires NonDecreasing(xs)
    ensures NonDecreasing(Select(xs, mask))
  {
    var r, ps := Select(xs, mask), TruePositions(mask);
    forall j, k | 0 <= j < k < |r| ensures r[j] <= r[k] {
      assert ps[j] < ps[k];
    }
  }
}
