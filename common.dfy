/** Small shared vocabulary: an optional value, distinctness of a sequence, minimum. */
module Common {

  datatype Option<+T> = None | Some(value: T)

  /** No element of `s` occurs twice. */
  predicate Distinct<T(==)>(s: seq<T>) {
    forall i, j :: 0 <= i < j < |s| ==> s[i] != s[j]
  }

  function Min(a: nat, b: nat): nat {
    if a <= b then a else b
  }

  /** The elements of a sequence as a set. */
  function Elements<T>(s: seq<T>): set<T> {
    set x | x in s
  }

  /** A sequence without repetitions has as many elements as its set. */
  lemma {:induction false} DistinctCardinality<T>(s: seq<T>)
    requires Distinct(s)
    ensures |Elements(s)| == |s|
  {
    if s != [] {
      var t := s[..|s| - 1];
      assert Distinct(t);
      DistinctCardinality(t);
      assert Elements(s) == Elements(t) + {s[|s| - 1]};
      assert forall i :: 0 <= i < |t| ==> t[i] == s[i] != s[|s| - 1];
      assert s[|s| - 1] !in Elements(t);
    }
  }

  /** A sequence of length n has at most n distinct elements. */
  lemma {:induction false} ElementsCardinality<T>(s: seq<T>)
    ensures |Elements(s)| <= |s|
  {
    if s != [] {
      var t := s[..|s| - 1];
      ElementsCardinality(t);
      assert Elements(s) == Elements(t) + {s[|s| - 1]};
    }
  }

  lemma SubsetCardinality<T>(a: set<T>, b: set<T>)
    requires a <= b
    ensures |a| <= |b|
  {
    assert b == a + (b - a);
  }
}
