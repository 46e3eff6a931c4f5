/**
 * The two texts produced for every selected tune: the description sentence
 * (retrieval.py, line 110) and the ABC header block of obj2abc_form
 * (retrieval.py, lines 19-26). Each comes with a reader that recovers the
 * fields it was built from.
 */
module Render {
  import opened Common
  import opened Text
  import opened Corpus

  /** Key and mode written together, e.g. "Dmajor". */
  function KeyModeText(t: Tune): string {
    KeyText(t.key) + t.mode
  }

  const CommentPrefix: string := "This tune is a "

  /** "This tune is a {type} in {key}{mode} and {meter}." */
  function Comment(t: Tune): (r: string)
    ensures |r| == |CommentPrefix| + |t.tuneType| + 4 + |KeyModeText(t)| + 5 + |t.meter| + 1
    ensures r[..|CommentPrefix|] == CommentPrefix && r[|r| - 1] == '.'
  {
    CommentPrefix + t.tuneType + " in " + KeyModeText(t) + " and " + t.meter + "."
  }

  /** obj2abc_form: title, meter and key lines, then the notation body and a line break. */
  function AbcForm(t: Tune): (r: string)
    ensures |r| == |t.name| + |t.meter| + |KeyModeText(t)| + |t.abc| + 10
    ensures r[..2] == "T:" && r[|r| - 1] == '\n'
  {
    "T:" + t.name + "\nM:" + t.meter + "\nK:" + KeyModeText(t) + "\n" + t.abc + "\n"
  }

  /** Reads a description sentence back into its type, key-and-mode and meter. */
  function ParseComment(s: string): Option<(string, string, string)> {
    if |s| > |CommentPrefix| && s[..|CommentPrefix|] == CommentPrefix && s[|s| - 1] == '.' then
      match SplitAt(s[|CommentPrefix|..|s| - 1], " in ")
      case None => None
      case Some(p) =>
        match SplitAt(p.1, " and ")
        case None => None
        case Some(q) => Some((p.0, q.0, q.1))
    else None
  }

  /**
   * The sentence determines the fields when " in " first occurs right after
   * the type and " and " first occurs right after the key-and-mode. Types
   * with spaces, such as "slip jig", qualify.
   */
  lemma CommentRoundTrip(t: Tune)
    requires FirstAfter(t.tuneType, " in ") && FirstAfter(KeyModeText(t), " and ")
    ensures ParseComment(Comment(t)) == Some((t.tuneType, KeyModeText(t), t.meter))
  {
    var s := Comment(t);
    var tail := KeyModeText(t) + " and " + t.meter;
    assert s == CommentPrefix + (t.tuneType + " in " + tail) + ".";
    assert s[..|CommentPrefix|] == CommentPrefix;
    assert s[|CommentPrefix|..|s| - 1] == t.tuneType + " in " + tail;
    SplitAtJoin(t.tuneType, " in ", tail);
    SplitAtJoin(KeyModeText(t), " and ", t.meter);
  }

  /** A line that starts with `tag`: the rest of the line and the text after it. */
  function Field(tag: string, s: string): Option<(string, string)> {
    if |tag| <= |s| && s[..|tag|] == tag then SplitAt(s[|tag|..], "\n") else None
  }

  /** Reads an ABC header block back into title, meter, key-and-mode and the rest. */
  function ParseAbcHeader(s: string): Option<(string, string, string, string)> {
    match Field("T:", s)
    case None => None
    case Some(title) =>
      match Field("M:", title.1)
      case None => None
      case Some(meter) =>
        match Field("K:", meter.1)
        case None => None
        case Some(key) => Some((title.0, meter.0, key.0, key.1))
  }

  lemma FieldJoin(tag: string, x: string, rest: string)
    requires '\n' !in x
    ensures Field(tag, tag + x + "\n" + rest) == Some((x, rest))
  {
    var s := tag + x + "\n" + rest;
    assert s[..|tag|] == tag && s[|tag|..] == x + "\n" + rest;
    FirstAfterByChar(x, "\n");
    SplitAtJoin(x, "\n", rest);
  }

  /** The header lines give back the title, meter and key-and-mode; the body follows. */
  lemma AbcFormRoundTrip(t: Tune)
    requires '\n' !in t.name && '\n' !in t.meter && '\n' !in KeyModeText(t)
    ensures ParseAbcHeader(AbcForm(t)) == Some((t.name, t.meter, KeyModeText(t), t.abc + "\n"))
  {
    var body := t.abc + "\n";
    var r2 := "K:" + KeyModeText(t) + "\n" + body;
    var r1 := "M:" + t.meter + "\n" + r2;
    assert AbcForm(t) == "T:" + t.name + "\n" + r1;
    FieldJoin("T:", t.name, r1);
    FieldJoin("M:", t.meter, r2);
    FieldJoin("K:", KeyModeText(t), body);
  }
}
