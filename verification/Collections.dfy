/** The elements of a sequence, and how many there are. */
module Collections {

  ghost predicate Distinct<T>(s: seq<T>) {
    forall a, b :: 0 <= a < b < |s| ==> s[a] != s[b]
  }

  function Elements<T>(s: seq<T>): set<T> {
    set x | x in s
  }

  lemma {:induction false} DistinctCount<T>(s: seq<T>)
    requires Distinct(s)
    ensures |Elements(s)| == |s|
  {
    if s == [] {
    } else {
      var n := |s| - 1;
      assert Elements(s) == Elements(s[..n]) + {s[n]};
      DistinctCount(s[..n]);
    }
  }

  lemma SubsetSize<T>(a: set<T>, b: set<T>)
    requires a <= b
    ensures |a| <= |b|
  {
    assert b == a + (b - a);
  }

  lemma ElementsConcat<T>(a: seq<T>, b: seq<T>)
    ensures Elements(a + b) == Elements(a) + Elements(b)
  {
  }

  lemma Regroup<T>(a: seq<T>, b: seq<T>, c: seq<T>)
    ensures a + (b + c) == (a + b) + c
  {
  }
}
