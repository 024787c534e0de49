/** Small facts about sequences and sets that several modules use. */
module Collections {

  function Elements<T(==)>(xs: seq<T>): set<T> {
    set x | x in xs
  }

  lemma SubsetSize<T>(a: set<T>, b: set<T>)
    requires a <= b
    ensures |a| <= |b|
    ensures a != b ==> |a| < |b|
  {
    if a != b {
      assert b == a + (b - a);
    }
  }

  lemma SameElements<T>(a: seq<T>, b: seq<T>)
    requires multiset(a) == multiset(b)
    ensures forall x :: x in a <==> x in b
  {
    assert forall x :: x in a <==> x in multiset(a);
    assert forall x :: x in b <==> x in multiset(b);
  }

  lemma {:induction false} SizeOfElements<T>(xs: seq<T>)
    ensures |Elements(xs)| <= |xs|
    ensures |Elements(xs)| == |xs| ==> forall i, j :: 0 <= i < j < |xs| ==> xs[i] != xs[j]
    decreases |xs|
  {
    if xs != [] {
      var n := |xs| - 1;
      SizeOfElements(xs[..n]);
      assert Elements(xs) == Elements(xs[..n]) + {xs[n]};
      assert xs[n] in xs[..n] ==> Elements(xs) == Elements(xs[..n]);
    }
  }
}
