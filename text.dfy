/** The few string operations of Python that the retrieval code relies on. */
module Text {
  import opened Common

  /** Python's `str.endswith`. */
  predicate EndsWith(s: string, suffix: string) {
    |suffix| <= |s| && s[|s| - |suffix|..] == suffix
  }

  /** Python's `str.lstrip(chars)`: drops the longest prefix made of `chars`. */
  function StripLeft(s: string, chars: set<char>): (r: string)
    ensures |r| <= |s| && r == s[|s| - |r|..]
    ensures r != [] ==> r[0] !in chars
    ensures forall i :: 0 <= i < |s| - |r| ==> s[i] in chars
  {
    if s != [] && s[0] in chars then StripLeft(s[1..], chars) else s
  }

  /** Python's `str.rstrip(chars)`: drops the longest suffix made of `chars`. */
  function StripRight(s: string, chars: set<char>): (r: string)
    ensures |r| <= |s| && r == s[..|r|]
    ensures r != [] ==> r[|r| - 1] !in chars
    ensures forall i :: |r| <= i < |s| ==> s[i] in chars
  {
    if s != [] && s[|s| - 1] in chars then StripRight(s[..|s| - 1], chars) else s
  }

  /** Python's `str.strip(chars)`. */
  function Strip(s: string, chars: set<char>): (r: string)
    ensures |r| <= |s|
    ensures r != [] ==> r[0] !in chars && r[|r| - 1] !in chars
    ensures var a := |s| - |StripLeft(s, chars)|;
      a + |r| <= |s| && r == s[a..a + |r|] &&
      (forall i :: 0 <= i < a ==> s[i] in chars) &&
      (forall i :: a + |r| <= i < |s| ==> s[i] in chars)
  {
    StripSlice(s, chars);
    StripRight(StripLeft(s, chars), chars)
  }

  /** Stripping both ends leaves a slice of the input with strip characters on either side of it. */
  lemma StripSlice(s: string, chars: set<char>)
    ensures var l := StripLeft(s, chars); var r, a := StripRight(l, chars), |s| - |l|;
      a + |r| <= |s| && r == s[a..a + |r|] &&
      (forall i :: a + |r| <= i < |s| ==> s[i] in chars)
  {
    var l := StripLeft(s, chars);
    var r, a := StripRight(l, chars), |s| - |l|;
    assert l == s[a..];
    assert r == l[..|r|];
    forall i | a + |r| <= i < |s|
      ensures s[i] in chars
    {
      assert s[i] == l[i - a];
    }
  }

  /**
   * Splits `s` at the first occurrence of `sep`: the text before it and the
   * text after it, or None when `sep` does not occur.
   */
  function SplitAt(s: string, sep: string): (r: Option<(string, string)>)
    requires sep != []
    ensures r.Some? ==> r.value.0 + sep + r.value.1 == s
    decreases |s|
  {
    if |s| < |sep| then None
    else if s[..|sep|] == sep then Some(([], s[|sep|..]))
    else match SplitAt(s[1..], sep)
      case None => None
      case Some(p) => Some(([s[0]] + p.0, p.1))
  }

  /** `sep` occurs in `s` at index `i`. */
  predicate SepAt(s: string, i: nat, sep: string) {
    i + |sep| <= |s| && s[i..i + |sep|] == sep
  }

  /** `sep` does not start anywhere inside `x + sep` before the copy that follows `x`. */
  predicate FirstAfter(x: string, sep: string) {
    forall i :: 0 <= i < |x| ==> !SepAt(x + sep, i, sep)
  }

  /** In particular when the first character of `sep` does not occur in `x`. */
  lemma FirstAfterByChar(x: string, sep: string)
    requires sep != [] && sep[0] !in x
    ensures FirstAfter(x, sep)
  {
    forall i | 0 <= i < |x| ensures !SepAt(x + sep, i, sep) {
      assert (x + sep)[i..i + |sep|][0] == x[i];
    }
  }

  /** When `sep` first occurs right after `x`, splitting `x + sep + y` at it gives `x` and `y`. */
  lemma {:induction false} SplitAtJoin(x: string, sep: string, y: string)
    requires sep != [] && FirstAfter(x, sep)
    ensures SplitAt(x + sep + y, sep) == Some((x, y))
  {
    var s := x + sep + y;
    if x == [] {
      assert s == sep + y;
      assert s[..|sep|] == sep;
      assert s[|sep|..] == y;
    } else {
      assert !SepAt(x + sep, 0, sep);
      assert s[..|sep|] == (x + sep)[0..|sep|];
      assert s[1..] == x[1..] + sep + y;
      forall i | 0 <= i < |x| - 1
        ensures !SepAt(x[1..] + sep, i, sep)
      {
        assert !SepAt(x + sep, i + 1, sep);
        assert (x[1..] + sep)[i..i + |sep|] == (x + sep)[i + 1..i + 1 + |sep|];
      }
      SplitAtJoin(x[1..], sep, y);
      assert [x[0]] + x[1..] == x;
    }
  }
}
