/** What `sort.Slice` is used for here: reorder by a key, largest first, ties in any order. */
module Sorting {
  import opened Sums

  // Where an item with this key goes in a descending sequence.
  method Position<T>(key: T -> real, sorted: seq<T>, x: T) returns (k: nat)
    requires Descending(Map(key, sorted))
    ensures k <= |sorted|
    ensures Descending(Map(key, sorted[..k] + [x] + sorted[k..]))
  {
    k := 0;
    while k < |sorted| && key(sorted[k]) >= key(x)
      invariant k <= |sorted|
      invariant forall i :: 0 <= i < k ==> key(sorted[i]) >= key(x)
    {
      k := k + 1;
    }
    forall i, j | 0 <= i < j <= |sorted|
      ensures Map(key, sorted[..k] + [x] + sorted[k..])[i] >= Map(key, sorted[..k] + [x] + sorted[k..])[j]
    {
      assert k < |sorted| ==> Map(key, sorted)[k] < key(x);
      if i != k {
        assert Map(key, sorted)[if i < k then i else i - 1] >= key(x) || i > k;
      }
    }
  }

  method SortDescending<T>(key: T -> real, items: seq<T>) returns (sorted: seq<T>)
    ensures multiset(sorted) == multiset(items)
    ensures Descending(Map(key, sorted))
  {
    sorted := [];
    for i := 0 to |items|
      invariant multiset(sorted) == multiset(items[..i])
      invariant Descending(Map(key, sorted))
    {
      var k := Position(key, sorted, items[i]);
      assert items[..i + 1] == items[..i] + [items[i]];
      assert sorted == sorted[..k] + sorted[k..];
      sorted := sorted[..k] + [items[i]] + sorted[k..];
    }
    assert items[..|items|] == items;
  }
}
