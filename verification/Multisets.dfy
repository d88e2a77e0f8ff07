// Sequences that are rearrangements of each other.

module Multisets {

  lemma SameElements<T>(a: seq<T>, b: seq<T>)
    requires multiset(a) == multiset(b)
    ensures forall x :: x in a <==> x in b
  {
    forall x ensures x in a <==> x in b {
      assert x in a <==> x in multiset(a);
      assert x in b <==> x in multiset(b);
    }
  }

  lemma CountTwice<T>(items: seq<T>, i: nat, j: nat)
    requires i < j < |items| && items[i] == items[j]
    ensures multiset(items)[items[i]] >= 2
  {
    assert items == items[..j] + items[j..];
    assert items[i] in items[..j] && items[j] in items[j..];
  }

  lemma CountOnce<T>(items: seq<T>, k: nat)
    requires k < |items| && forall i :: 0 <= i < |items| && i != k ==> items[i] != items[k]
    ensures multiset(items)[items[k]] == 1
  {
    var others := items[..k] + items[k + 1..];
    assert items == items[..k] + [items[k]] + items[k + 1..];
    assert items[k] !in others;
    assert multiset(items) == multiset(others) + multiset{items[k]};
  }
}
