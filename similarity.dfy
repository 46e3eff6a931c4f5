/**
 * Jaccard similarity between a query encoding and a row encoding, kept as an
 * exact fraction, and the descending ranking built on it (retrieval.py,
 * lines 79-88 and 100-106).
 */
module Similarity {
  import opened Common
  import opened Encoding

  /** A Jaccard score as a fraction: bits set in both over bits set in either. */
  datatype Score = Score(shared: nat, total: nat)

  /** `query * db` on 0/1 rows. */
  function And(a: BitVec, b: BitVec): BitVec
    requires |a| == |b|
  {
    seq(|a|, i requires 0 <= i < |a| => a[i] && b[i])
  }

  /** `query + db > 0` on 0/1 rows. */
  function Or(a: BitVec, b: BitVec): BitVec
    requires |a| == |b|
  {
    seq(|a|, i requires 0 <= i < |a| => a[i] || b[i])
  }

  /** jaccard_similarity for one row: bits set in both over bits set in either. */
  function Jaccard(q: BitVec, d: BitVec): (s: Score)
    requires |q| == |d|
    ensures s.shared <= s.total <= |q|
  {
    CountMonotone(And(q, d), Or(q, d));
    CountBounded(Or(q, d));
    Score(Count(And(q, d)), Count(Or(q, d)))
  }

  /** A defined score, read as the quotient the source computes, lies in [0, 1]. */
  lemma JaccardBounded(q: BitVec, d: BitVec)
    requires |q| == |d| && Jaccard(q, d).total > 0
    ensures var s := Jaccard(q, d); 0.0 <= s.shared as real / s.total as real <= 1.0
  {
    var s := Jaccard(q, d);
    QuotientInUnit(s.shared as real, s.total as real);
  }

  lemma QuotientInUnit(n: real, t: real)
    requires 0.0 <= n <= t && t > 0.0
    ensures 0.0 <= n / t <= 1.0
  {
    var x := n / t;
    assert x * t == n;
    assert (1.0 - x) * t == t - n;
  }

  lemma JaccardSymmetric(q: BitVec, d: BitVec)
    requires |q| == |d|
    ensures Jaccard(q, d) == Jaccard(d, q)
  {
    assert And(q, d) == And(d, q);
    assert Or(q, d) == Or(d, q);
  }

  /** A vector against itself scores 1, and the fraction is defined when a bit is set. */
  lemma JaccardSelf(v: BitVec, k: nat)
    requires k < |v| && v[k]
    ensures Jaccard(v, v).shared == Jaccard(v, v).total == Count(v) > 0
  {
    assert And(v, v) == v;
    assert Or(v, v) == v;
    CountPositive(v, k);
  }

  /** A query with no known tag shares nothing with any row. */
  lemma JaccardEmptyQuery(q: BitVec, d: BitVec)
    requires |q| == |d|
    requires forall k :: 0 <= k < |q| ==> !q[k]
    ensures Jaccard(q, d).shared == 0
    ensures Jaccard(q, d).total == Count(d)
  {
    CountZero(And(q, d));
    assert Or(q, d) == d;
  }

  /** Against a row with a set bit the union is never empty, so the fraction is defined. */
  lemma JaccardDefined(q: BitVec, d: BitVec, k: nat)
    requires |q| == |d| && k < |d| && d[k]
    ensures Jaccard(q, d).total > 0
  {
    CountPositive(Or(q, d), k);
  }

  /**
   * On encodings over a vocabulary without repetitions, the score is the set
   * Jaccard of the known tags: |A * B| over |A + B|, both restricted to the
   * vocabulary. So the score does not depend on the order of the terms.
   */
  lemma EncodedJaccard(vocab: seq<string>, a: set<string>, b: set<string>)
    requires Distinct(vocab)
    ensures Jaccard(Encode(vocab, a), Encode(vocab, b)) == Score(|a * b * Elements(vocab)|, |(a + b) * Elements(vocab)|)
  {
    assert And(Encode(vocab, a), Encode(vocab, b)) == Encode(vocab, a * b);
    assert Or(Encode(vocab, a), Encode(vocab, b)) == Encode(vocab, a + b);
    EncodeCount(vocab, a * b);
    EncodeCount(vocab, a + b);
  }

  // ---- comparing scores by cross-multiplication ----

  /** `a` scores at least as high as `b`. */
  predicate AtLeast(a: Score, b: Score) {
    a.shared * b.total >= b.shared * a.total
  }

  predicate Defined(s: Score) {
    s.total > 0
  }

  lemma MulMonotone(x: int, y: int, z: int)
    requires x >= y && z >= 0
    ensures x * z >= y * z
  {
    assert x * z - y * z == (x - y) * z;
  }

  lemma MulCancel(x: int, y: int, z: int)
    requires z > 0 && x * z >= y * z
    ensures x >= y
  {
    if x < y { MulMonotone(y, x + 1, z); }
  }

  lemma AtLeastTransitive(a: Score, b: Score, c: Score)
    requires Defined(b)
    requires AtLeast(a, b) && AtLeast(b, c)
    ensures AtLeast(a, c)
  {
    MulMonotone(a.shared * b.total, b.shared * a.total, c.total);
    MulMonotone(b.shared * c.total, c.shared * b.total, a.total);
    assert a.shared * b.total * c.total == (a.shared * c.total) * b.total;
    assert b.shared * a.total * c.total == b.shared * c.total * a.total;
    assert c.shared * b.total * a.total == (c.shared * a.total) * b.total;
    MulCancel(a.shared * c.total, c.shared * a.total, b.total);
  }

  /** Cross-multiplying agrees with comparing the quotients the source computes. */
  lemma AtLeastMatchesQuotient(a: Score, b: Score)
    requires Defined(a) && Defined(b)
    ensures AtLeast(a, b) <==> a.shared as real / a.total as real >= b.shared as real / b.total as real
  {
    var x, y := a.shared as real / a.total as real, b.shared as real / b.total as real;
    assert x * a.total as real == a.shared as real;
    assert y * b.total as real == b.shared as real;
    assert (a.shared * b.total) as real == x * (a.total * b.total) as real;
    assert (b.shared * a.total) as real == y * (a.total * b.total) as real;
  }

  // ---- ranking ----

  predicate InRange(order: seq<nat>, n: nat) {
    forall k :: 0 <= k < |order| ==> order[k] < n
  }

  /** The rows named by `order` come in non-increasing score order. */
  predicate Descending(scores: seq<Score>, order: seq<nat>)
    requires InRange(order, |scores|)
  {
    forall a, b :: 0 <= a < b < |order| ==> AtLeast(scores[order[a]], scores[order[b]])
  }

  predicate AllDefined(scores: seq<Score>) {
    forall i :: 0 <= i < |scores| ==> Defined(scores[i])
  }

  /** `order` lists every row index exactly once, highest score first. */
  predicate IsRanking(scores: seq<Score>, order: seq<nat>) {
    |order| == |scores| && Distinct(order) && InRange(order, |scores|) &&
    (forall j :: 0 <= j < |scores| ==> j in order) &&
    Descending(scores, order)
  }

  /**
   * `picks` is a valid top-k: min(k, n) distinct rows in non-increasing score
   * order, and no row left out scores higher than a row picked.
   */
  predicate IsTopK(scores: seq<Score>, picks: seq<nat>, k: nat) {
    |picks| == Min(k, |scores|) && Distinct(picks) && InRange(picks, |scores|) &&
    Descending(scores, picks) &&
    forall a, j :: 0 <= a < |picks| && 0 <= j < |scores| && j !in picks ==> AtLeast(scores[picks[a]], scores[j])
  }

  /**
   * Inserting row `i` between the rows that score at least as high and the
   * rest turns a ranking of rows 0..i-1 into a ranking of rows 0..i.
   */
  lemma InsertStep(scores: seq<Score>, order: seq<nat>, p: nat, i: nat)
    requires i < |scores| && p <= |order| == i
    requires Distinct(order) && InRange(order, i) && forall j :: 0 <= j < i ==> j in order
    requires Descending(scores, order)
    requires forall a :: 0 <= a < p ==> AtLeast(scores[order[a]], scores[i])
    requires forall b :: p <= b < |order| ==> AtLeast(scores[i], scores[order[b]])
    ensures var r := order[..p] + [i] + order[p..];
      |r| == i + 1 && Distinct(r) && InRange(r, i + 1) && (forall j :: 0 <= j < i + 1 ==> j in r) &&
      Descending(scores, r)
  {
    var r := order[..p] + [i] + order[p..];
    assert forall a :: 0 <= a < p ==> r[a] == order[a];
    assert r[p] == i;
    assert forall a :: p < a < |r| ==> r[a] == order[a - 1];
    forall j | 0 <= j < i ensures j in r {
      assert j in order;
      var b :| 0 <= b < |order| && order[b] == j;
      if b < p { assert r[b] == j; } else { assert r[b + 1] == j; }
    }
  }

  /** numpy's argsort of the negated scores: a ranking of all rows, best first. */
  method Argsort(scores: seq<Score>) returns (order: seq<nat>)
    requires AllDefined(scores)
    ensures IsRanking(scores, order)
  {
    order := [];
    for i := 0 to |scores|
      invariant |order| == i && Distinct(order) && InRange(order, i)
      invariant forall j :: 0 <= j < i ==> j in order
      invariant Descending(scores, order)
    {
      var p := 0;
      while p < |order| && AtLeast(scores[order[p]], scores[i])
        invariant p <= |order|
        invariant forall a :: 0 <= a < p ==> AtLeast(scores[order[a]], scores[i])
      {
        p := p + 1;
      }
      forall b | p <= b < |order|
        ensures AtLeast(scores[i], scores[order[b]])
      {
        if b > p { AtLeastTransitive(scores[i], scores[order[p]], scores[order[b]]); }
      }
      InsertStep(scores, order, p, i);
      order := order[..p] + [i] + order[p..];
    }
  }

  /** The first k entries of a ranking are a valid top-k. */
  lemma RankingPrefixIsTopK(scores: seq<Score>, order: seq<nat>, k: nat)
    requires IsRanking(scores, order)
    ensures IsTopK(scores, order[..Min(k, |order|)], k)
  {
    var m := Min(k, |order|);
    var picks := order[..m];
    forall a, j | 0 <= a < |picks| && 0 <= j < |scores| && j !in picks
      ensures AtLeast(scores[picks[a]], scores[j])
    {
      assert j in order;
      var b :| 0 <= b < |order| && order[b] == j;
      assert b >= m;
    }
  }

  /**
   * A top-k cannot score strictly lower at position `a` than another top-k:
   * otherwise the rows the other one puts at positions 0..a would all be
   * strictly better and would all have to come before position a.
   */
  lemma {:induction false} TopKNotBelow(scores: seq<Score>, p1: seq<nat>, p2: seq<nat>, k: nat, a: nat)
    requires AllDefined(scores) && IsTopK(scores, p1, k) && IsTopK(scores, p2, k)
    requires a < |p1|
    ensures AtLeast(scores[p2[a]], scores[p1[a]])
  {
    var x := scores[p2[a]];
    if !AtLeast(x, scores[p1[a]]) {
      forall b | 0 <= b <= a
        ensures p1[b] in p2[..a]
      {
        assert AtLeast(scores[p1[b]], scores[p1[a]]);
        if AtLeast(x, scores[p1[b]]) {
          AtLeastTransitive(x, scores[p1[b]], scores[p1[a]]);
        }
        assert p1[b] in p2;
        var c :| 0 <= c < |p2| && p2[c] == p1[b];
        assert forall d :: a <= d < |p2| ==> AtLeast(x, scores[p2[d]]);
        assert p2[..a][c] == p1[b];
      }
      var upper := p1[..a + 1];
      assert Distinct(upper);
      DistinctCardinality(upper);
      ElementsCardinality(p2[..a]);
      forall y | y in Elements(upper) ensures y in Elements(p2[..a]) {
        var b :| 0 <= b < |upper| && upper[b] == y;
        assert p1[b] in p2[..a];
      }
      SubsetCardinality(Elements(upper), Elements(p2[..a]));
      assert false;
    }
  }

  /**
   * Any two valid top-k selections agree, position by position, on the score:
   * the only freedom an unstable argsort has is the order among ties.
   */
  lemma TopKScoresAgree(scores: seq<Score>, p1: seq<nat>, p2: seq<nat>, k: nat)
    requires AllDefined(scores) && IsTopK(scores, p1, k) && IsTopK(scores, p2, k)
    ensures |p1| == |p2|
    ensures forall a :: 0 <= a < |p1| ==> AtLeast(scores[p1[a]], scores[p2[a]]) && AtLeast(scores[p2[a]], scores[p1[a]])
  {
    forall a | 0 <= a < |p1|
      ensures AtLeast(scores[p1[a]], scores[p2[a]]) && AtLeast(scores[p2[a]], scores[p1[a]])
    {
      TopKNotBelow(scores, p1, p2, k, a);
      TopKNotBelow(scores, p2, p1, k, a);
    }
  }
}
