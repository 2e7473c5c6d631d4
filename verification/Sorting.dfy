/** The source's `sort_by` with an order that leaves no two of the items tied. */
module Sorting {

  ghost predicate Ordered<T(!new)>(s: seq<T>, less: (T, T) -> bool) {
    forall i, j :: 0 <= i < j < |s| ==> less(s[i], s[j])
  }

  ghost predicate Transitive<T(!new)>(less: (T, T) -> bool) {
    forall x, y, z :: less(x, y) && less(y, z) ==> less(x, z)
  }

  method SortBy<T(!new)>(items: seq<T>, less: (T, T) -> bool) returns (sorted: seq<T>)
    requires Transitive(less)
    requires forall i, j :: 0 <= i < j < |items| ==> less(items[i], items[j]) || less(items[j], items[i])
    ensures |sorted| == |items| && (forall x :: x in sorted <==> x in items)
    ensures Ordered(sorted, less)
  {
    sorted := [];
    var i := 0;
    while i < |items|
      invariant 0 <= i <= |items| && |sorted| == i
      invariant forall x :: x in sorted <==> x in items[..i]
      invariant Ordered(sorted, less)
    {
      var c := items[i];
      var k := 0;
      while k < |sorted| && less(sorted[k], c)
        invariant 0 <= k <= |sorted|
        invariant forall j :: 0 <= j < k ==> less(sorted[j], c)
      {
        k := k + 1;
      }
      forall j | k <= j < |sorted| ensures less(c, sorted[j]) {
        assert sorted[k] in items[..i];
        var m :| 0 <= m < i && items[m] == sorted[k];
        assert less(c, sorted[k]);
      }
      sorted := sorted[..k] + [c] + sorted[k..];
      assert items[..i + 1] == items[..i] + [c];
      i := i + 1;
    }
    assert items[..|items|] == items;
  }
}
