/** A non-empty set or map has a member to pick. */
module Sets {

  lemma SomeNumber(s: set<int>)
    ensures s == {} || exists x :: x in s
  {
    assert (forall x :: x !in s) ==> s == {};
  }

  lemma SomeKey<V>(m: map<int, V>)
    ensures m == map[] || exists k :: k in m
  {
    assert (forall k :: k !in m) ==> m == map[];
  }
}
