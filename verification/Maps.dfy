/** Two maps compared key by key. */
module Maps {

  predicate SameAt<K(==), V(==)>(a: map<K, V>, b: map<K, V>, x: K) {
    (x in a <==> x in b) && (x in a ==> a[x] == b[x])
  }

  lemma SameEverywhere<K(!new), V>(a: map<K, V>, b: map<K, V>)
    requires forall x :: SameAt(a, b, x)
    ensures a == b
  {
    forall x ensures (x in a <==> x in b) && (x in a ==> a[x] == b[x]) {
      assert SameAt(a, b, x);
    }
  }

  lemma SameAsItself<K, V>(a: map<K, V>, x: K)
    ensures SameAt(a, a, x)
  {
  }

  lemma MergeElsewhere<K, V>(a: map<K, V>, b: map<K, V>, x: K)
    requires x !in b
    ensures SameAt(a + b, a, x)
  {
  }

  lemma MergeNothing<K(!new), V>(a: map<K, V>, b: map<K, V>)
    requires forall x :: x !in b
    ensures a + b == a
  {
    SameEverywhere(a + b, a);
  }

  lemma MergeAssoc<K, V>(a: map<K, V>, b: map<K, V>, c: map<K, V>)
    ensures a + b + c == a + (b + c)
  {
  }
}
