/**
 * Multi-hot encoding over the fitted vocabulary (the MultiLabelBinarizer of
 * retrieval.py, lines 69-72 and 98): one bit per vocabulary term, set when
 * the term is among the tags. The order of the terms is arbitrary but fixed.
 */
module Encoding {
  import opened Common

  type BitVec = seq<bool>

  /** The encoding of a tag set; tags outside `vocab` set no bit. */
  function Encode(vocab: seq<string>, tags: set<string>): (v: BitVec)
    ensures |v| == |vocab|
  {
    seq(|vocab|, i requires 0 <= i < |vocab| => vocab[i] in tags)
  }

  /** The number of set bits (numpy's sum over a 0/1 row). */
  function Count(v: BitVec): nat {
    if v == [] then 0 else Count(v[..|v| - 1]) + (if v[|v| - 1] then 1 else 0)
  }

  lemma {:induction false} CountBounded(v: BitVec)
    ensures Count(v) <= |v|
  {
    if v != [] { CountBounded(v[..|v| - 1]); }
  }

  /** A vector with a set bit has a positive count. */
  lemma {:induction false} CountPositive(v: BitVec, k: nat)
    requires k < |v| && v[k]
    ensures Count(v) > 0
  {
    if k < |v| - 1 {
      assert v[..|v| - 1][k] == v[k];
      CountPositive(v[..|v| - 1], k);
    }
  }

  /** A vector with no set bit has count zero. */
  lemma {:induction false} CountZero(v: BitVec)
    requires forall k :: 0 <= k < |v| ==> !v[k]
    ensures Count(v) == 0
  {
    if v != [] { CountZero(v[..|v| - 1]); }
  }

  /** Count is monotone in the bitwise order. */
  lemma {:induction false} CountMonotone(a: BitVec, b: BitVec)
    requires |a| == |b|
    requires forall k :: 0 <= k < |a| && a[k] ==> b[k]
    ensures Count(a) <= Count(b)
  {
    if a != [] { CountMonotone(a[..|a| - 1], b[..|b| - 1]); }
  }

  /** Over a vocabulary without repetitions, the encoding sets one bit per known tag. */
  lemma {:induction false} EncodeCount(vocab: seq<string>, tags: set<string>)
    requires Distinct(vocab)
    ensures Count(Encode(vocab, tags)) == |tags * Elements(vocab)|
  {
    if vocab != [] {
      var w, x := vocab[..|vocab| - 1], vocab[|vocab| - 1];
      assert Distinct(w);
      EncodeCount(w, tags);
      assert Encode(vocab, tags)[..|vocab| - 1] == Encode(w, tags);
      assert x !in Elements(w) by {
        assert forall i :: 0 <= i < |w| ==> w[i] == vocab[i] != x;
      }
      assert Elements(vocab) == Elements(w) + {x};
      if x in tags {
        assert tags * Elements(vocab) == tags * Elements(w) + {x};
      } else {
        assert tags * Elements(vocab) == tags * Elements(w);
      }
    }
  }

  /** A tag outside the vocabulary does not change the encoding. */
  lemma EncodeIgnoresUnknown(vocab: seq<string>, tags: set<string>, t: string)
    requires t !in vocab
    ensures Encode(vocab, tags + {t}) == Encode(vocab, tags)
    ensures Encode(vocab, tags - {t}) == Encode(vocab, tags)
  {
    assert forall i :: 0 <= i < |vocab| ==> vocab[i] != t;
  }

  /** Only the known tags matter. */
  lemma EncodeKnownTags(vocab: seq<string>, tags: set<string>)
    ensures Encode(vocab, tags) == Encode(vocab, tags * Elements(vocab))
  {
    assert forall i :: 0 <= i < |vocab| ==> vocab[i] in Elements(vocab);
  }
}
