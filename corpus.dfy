/**
 * The tune table as the retrieval system holds it after loading: every raw
 * record kept, the raw mode field split into key and mode, a trailing
 * ", The" moved to the front of the name, and the tag vocabulary built from
 * the type, mode and meter columns (retrieval.py, lines 11-17 and 31-73).
 */
module Corpus {
  import opened Common
  import opened Text

  /** One record of the tune file, before normalisation. */
  datatype RawTune = RawTune(
    name: string,
    tuneType: string,
    rawMode: string,   // key and mode in one field, e.g. "Dmajor"
    meter: string,
    abc: string,
    tuneId: int)

  /**
   * One row of the loaded table. `key` is None when the raw mode field is
   * empty (pandas yields a missing value for the first character of "").
   */
  datatype Tune = Tune(
    name: string,
    tuneType: string,
    key: Option<char>,
    mode: string,
    meter: string,
    abc: string)

  /** The suffixes handle_the looks for, in order. */
  const Thes: seq<string> := [", The"]

  /** Characters the suffix is stripped of before it is put in front. */
  const StripChars: set<char> := {',', ' '}

  /** What normalising a title means: ", The" at the end becomes "The " at the front. */
  function FrontArticle(title: string): (r: string)
    ensures EndsWith(title, ", The") ==> |r| == |title| - 1 && r[..4] == "The "
    ensures !EndsWith(title, ", The") ==> r == title
  {
    if EndsWith(title, ", The") then "The " + title[..|title| - 5] else title
  }

  /** One pass of the handle_the loop, for the suffix `the`. */
  function MoveSuffix(title: string, the: string): string {
    if EndsWith(title, the) then
      // Python's title[:-0] is the empty string
      var cut := if |the| == 0 then 0 else |title| - |the|;
      Strip(the, StripChars) + " " + title[..cut]
    else title
  }

  /** The title after the handle_the loop has visited each suffix of `thes` in turn. */
  function MoveSuffixes(title: string, thes: seq<string>): string {
    if thes == [] then title else MoveSuffix(MoveSuffixes(title, thes[..|thes| - 1]), thes[|thes| - 1])
  }

  /** The left strip removes the comma and the space of ", The". */
  lemma StripLeftSuffix()
    ensures StripLeft(", The", StripChars) == "The"
  {
    var the: string := ['T', 'h', 'e'];
    var s: string := [',', ' '] + the;
    assert s == ", The";
    assert s[1..] == [' '] + the && s[1..][1..] == the;
    assert the[0] == 'T' && 'T' !in StripChars;
    assert StripLeft(the, StripChars) == the;
    assert StripLeft(s[1..], StripChars) == the;
  }

  lemma StripSuffix()
    ensures Strip(", The", StripChars) == "The"
  {
    StripLeftSuffix();
    var the: string := ['T', 'h', 'e'];
    assert the == "The";
    assert the[|the| - 1] == 'e' && 'e' !in StripChars;
    assert StripRight(the, StripChars) == the;
  }

  /** handle_the: a trailing ", The" is moved to the front, anything else is left alone. */
  method HandleThe(title: string) returns (r: string)
    ensures r == FrontArticle(title)
    ensures EndsWith(title, ", The") ==> r == "The " + title[..|title| - 5] && |r| == |title| - 1
    ensures !EndsWith(title, ", The") ==> r == title
  {
    r := title;
    for i := 0 to |Thes|
      invariant r == MoveSuffixes(title, Thes[..i])
    {
      assert Thes[..i + 1][..i] == Thes[..i];
      r := MoveSuffix(r, Thes[i]);
    }
    assert Thes[..|Thes|] == Thes;
    HandleTheLoopResult(title);
  }

  /** Visiting the one suffix ", The" is fronting the article. */
  lemma HandleTheLoopResult(title: string)
    ensures MoveSuffixes(title, Thes) == FrontArticle(title)
  {
    assert Thes[..0] == [];
    StripSuffix();
    assert "The" + " " == "The ";
  }

  /** The raw mode field split at index 1 into key and mode. */
  datatype KeyMode = KeyMode(key: Option<char>, mode: string)

  function KeyText(key: Option<char>): string {
    match key
    case Some(c) => [c]
    case None => "nan"   // how Python formats pandas' missing value
  }

  function SplitMode(raw: string): (r: KeyMode)
    ensures raw != [] ==> r.key == Some(raw[0]) && KeyText(r.key) + r.mode == raw
    ensures raw == [] ==> r.key == None && r.mode == []
  {
    if raw == [] then KeyMode(None, []) else KeyMode(Some(raw[0]), raw[1..])
  }

  /** One raw record as a loaded row; the id column is projected away. */
  function LoadRow(raw: RawTune): (r: Tune)
    ensures r.name == FrontArticle(raw.name)
    ensures KeyMode(r.key, r.mode) == SplitMode(raw.rawMode)
    ensures raw.rawMode != [] ==> KeyText(r.key) + r.mode == raw.rawMode
    ensures r.tuneType == raw.tuneType && r.meter == raw.meter && r.abc == raw.abc
  {
    var km := SplitMode(raw.rawMode);
    Tune(FrontArticle(raw.name), raw.tuneType, km.key, km.mode, raw.meter, raw.abc)
  }

  /** The loaded table: every record, in file order, none dropped. */
  function LoadCorpus(db: seq<RawTune>): (df: seq<Tune>)
    ensures |df| == |db|
    ensures forall i :: 0 <= i < |db| ==> df[i] == LoadRow(db[i])
  {
    seq(|db|, i requires 0 <= i < |db| => LoadRow(db[i]))
  }

  /** The tags of one row: its type, mode and meter values. */
  function RowTags(t: Tune): set<string> {
    {t.tuneType, t.mode, t.meter}
  }

  function Types(df: seq<Tune>): seq<string> { seq(|df|, i requires 0 <= i < |df| => df[i].tuneType) }
  function Modes(df: seq<Tune>): seq<string> { seq(|df|, i requires 0 <= i < |df| => df[i].mode) }
  function Meters(df: seq<Tune>): seq<string> { seq(|df|, i requires 0 <= i < |df| => df[i].meter) }

  /** pandas' `unique`: the distinct values in order of first appearance. */
  function Unique(s: seq<string>): (r: seq<string>)
    ensures Distinct(r)
    ensures forall x :: x in r <==> x in s
    ensures |r| <= |s|
  {
    if s == [] then []
    else
      var rest := Unique(s[..|s| - 1]);
      if s[|s| - 1] in rest then rest else rest + [s[|s| - 1]]
  }

  /** `all_tags`: distinct types, then distinct modes, then distinct meters. */
  function AllTags(df: seq<Tune>): (r: seq<string>)
    ensures |r| <= 3 * |df|
  {
    Unique(Types(df)) + Unique(Modes(df)) + Unique(Meters(df))
  }

  /** Every tag of every row is in the vocabulary. */
  lemma {:induction false} RowTagsInAllTags(df: seq<Tune>, i: nat)
    requires i < |df|
    ensures RowTags(df[i]) <= Elements(AllTags(df))
  {
    var types, modes, meters := Types(df), Modes(df), Meters(df);
    assert types[i] == df[i].tuneType && types[i] in Unique(types);
    assert modes[i] == df[i].mode && modes[i] in Unique(modes);
    assert meters[i] == df[i].meter && meters[i] in Unique(meters);
  }

  /** Every vocabulary tag is a tag of some row. */
  lemma {:induction false} AllTagsFromRows(df: seq<Tune>, x: string)
    requires x in AllTags(df)
    ensures exists i :: 0 <= i < |df| && x in RowTags(df[i])
  {
    var types, modes, meters := Types(df), Modes(df), Meters(df);
    assert AllTags(df) == Unique(types) + Unique(modes) + Unique(meters);
    if x in Unique(types) {
      var i :| 0 <= i < |df| && types[i] == x;
      assert x in RowTags(df[i]);
    } else if x in Unique(modes) {
      var i :| 0 <= i < |df| && modes[i] == x;
      assert x in RowTags(df[i]);
    } else {
      assert x in Unique(meters);
      var i :| 0 <= i < |df| && meters[i] == x;
      assert x in RowTags(df[i]);
    }
  }
}
