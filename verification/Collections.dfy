/** Facts about sets and maps of ids that need an instance to be found. */
module Collections {
  lemma NonEmpty(ids: set<int>)
    requires ids != {}
    ensures exists i :: i in ids
  {
    assert (forall i :: i !in ids) ==> ids == {};
  }

  lemma SameMap<V>(a: map<int, V>, b: map<int, V>)
    requires (forall i :: i in a <==> i in b) && forall i | i in a :: a[i] == b[i]
    ensures a == b
  {
    assert (forall i :: i in a.Keys <==> i in b.Keys) ==> a.Keys == b.Keys;
    assert (forall i :: i in a ==> a[i] == b[i]) ==> a == b;
  }

  lemma SubsetSize(a: set<int>, b: set<int>)
    requires a <= b
    ensures |a| <= |b|
  {
    assert b == a + (b - a);
  }
}
