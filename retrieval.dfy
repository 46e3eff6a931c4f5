/**
 * The retrieval service (class RetrievalSystem of retrieval.py): a read-only
 * table and its encoding built once, per-filter top-K selection, and the
 * assembly of the reply text from the translator's filters.
 */
module Retrieval {
  import opened Common
  import opened Corpus
  import opened Encoding
  import opened Similarity
  import opened Render

  /** What the language-model translator hands back for one request. */
  datatype Translation =
    | NotApplicable                               // a reply that parses to the JSON string "Not applicable."
    | Filters(filters: seq<map<string, string>>)  // a JSON list of attribute objects
    | Failure                                     // transport error, a reply json.loads rejects (the
                                                  // bare text Not applicable. among them), or one whose
                                                  // iteration raises (a number, null, a non-empty string
                                                  // or object, a list holding a non-object); a reply that
                                                  // parses to [], {} or "" loops zero times, so it is Filters([])

  /** One selected tune: its sentence, its row and its ABC header block. */
  datatype TuneResult = TuneResult(comment: string, content: Tune, abcForm: string)

  function Describe(t: Tune): TuneResult {
    TuneResult(Comment(t), t, AbcForm(t))
  }

  /** The results for the rows `picks`, in that order. */
  function DescribeAll(df: seq<Tune>, picks: seq<nat>): seq<TuneResult>
    requires InRange(picks, |df|)
  {
    seq(|picks|, a requires 0 <= a < |picks| => Describe(df[picks[a]]))
  }

  /** The selection loop of select_tunes: the sentence and header block of each picked row in turn. */
  method DescribeRows(df: seq<Tune>, picks: seq<nat>) returns (tunes: seq<TuneResult>)
    requires InRange(picks, |df|)
    ensures tunes == DescribeAll(df, picks)
  {
    tunes := [];
    for a := 0 to |picks|
      invariant |tunes| == a
      invariant forall b :: 0 <= b < a ==> tunes[b] == Describe(df[picks[b]])
    {
      tunes := tunes + [Describe(df[picks[a]])];
    }
  }

  /** The text one tune contributes to the reply. */
  function RenderTune(r: TuneResult): string {
    r.comment + "\n" + r.abcForm + "\n\n"
  }

  function RenderAll(ts: seq<TuneResult>): (r: string)
    ensures |r| >= 3 * |ts|
    ensures ts != [] ==> r[|r| - 2..] == "\n\n"
  {
    if ts == [] then "" else RenderAll(ts[..|ts| - 1]) + RenderTune(ts[|ts| - 1])
  }

  /** The per-filter results one after the other, in filter order. */
  function Flatten(rs: seq<seq<TuneResult>>): seq<TuneResult> {
    if rs == [] then [] else Flatten(rs[..|rs| - 1]) + rs[|rs| - 1]
  }

  /** A tune is in the combined list exactly when some filter selected it. */
  lemma {:induction false} FlattenMembers(rs: seq<seq<TuneResult>>, x: TuneResult)
    ensures x in Flatten(rs) <==> exists i :: 0 <= i < |rs| && x in rs[i]
  {
    if rs != [] {
      var init := rs[..|rs| - 1];
      FlattenMembers(init, x);
      if x in Flatten(rs) && x !in rs[|rs| - 1] {
        var i :| 0 <= i < |init| && x in init[i];
        assert x in rs[i];
      }
      if exists i :: 0 <= i < |rs| && x in rs[i] {
        var i :| 0 <= i < |rs| && x in rs[i];
        if i < |rs| - 1 {
          assert x in init[i];
        }
      }
    }
  }

  /** The reply for a list of tunes is the replies for its parts, concatenated. */
  lemma {:induction false} RenderAllAppend(a: seq<TuneResult>, b: seq<TuneResult>)
    ensures RenderAll(a + b) == RenderAll(a) + RenderAll(b)
  {
    if b != [] {
      var c, t := b[..|b| - 1], b[|b| - 1];
      assert (a + b)[..|a + b| - 1] == a + c;
      assert (a + b)[|a + b| - 1] == t;
      RenderAllAppend(a, c);
      calc {
        RenderAll(a + b);
        RenderAll(a + c) + RenderTune(t);
        RenderAll(a) + RenderAll(c) + RenderTune(t);
        RenderAll(a) + RenderAll(b);
      }
    } else {
      assert a + b == a;
    }
  }

  lemma {:induction false} FlattenAppend(a: seq<seq<TuneResult>>, b: seq<seq<TuneResult>>)
    ensures Flatten(a + b) == Flatten(a) + Flatten(b)
  {
    if b != [] {
      assert (a + b)[..|a + b| - 1] == a + b[..|b| - 1];
      FlattenAppend(a, b[..|b| - 1]);
    } else {
      assert a + b == a;
    }
  }

  /** Filters that each contribute m tunes contribute m tunes apiece. */
  lemma {:induction false} FlattenLength(rs: seq<seq<TuneResult>>, m: nat)
    requires forall i :: 0 <= i < |rs| ==> |rs[i]| == m
    ensures |Flatten(rs)| == |rs| * m
  {
    if rs != [] {
      FlattenLength(rs[..|rs| - 1], m);
      assert (|rs| - 1) * m + m == |rs| * m;
    }
  }

  /** The reply for a sequence of filters is the replies for its parts, concatenated. */
  lemma ReplyAppend(a: seq<seq<TuneResult>>, b: seq<seq<TuneResult>>)
    ensures RenderAll(Flatten(a + b)) == RenderAll(Flatten(a)) + RenderAll(Flatten(b))
  {
    FlattenAppend(a, b);
    RenderAllAppend(Flatten(a), Flatten(b));
  }

  /** The output loop of call: sentence, line break, header block, blank line, tune after tune. */
  method RenderReply(tunes: seq<TuneResult>) returns (text: string)
    ensures text == RenderAll(tunes)
  {
    text := "";
    for j := 0 to |tunes|
      invariant text == RenderAll(tunes[..j])
    {
      assert tunes[..j + 1][..j] == tunes[..j];
      text := text + tunes[j].comment + "\n";
      text := text + tunes[j].abcForm + "\n\n";
    }
    assert tunes[..|tunes|] == tunes;
  }

  /**
   * A worked example: three tunes {jig, major, 6/8}, {reel, minor, 4/4} and
   * {jig, major, 4/4}, and the filter {type: jig, meter: 4/4}.
   */
  function ExampleTable(): seq<Tune> {
    [Tune("A", "jig", Some('D'), "major", "6/8", ""),
     Tune("B", "reel", Some('E'), "minor", "4/4", ""),
     Tune("C", "jig", Some('G'), "major", "4/4", "")]
  }

  function ExampleFilter(): map<string, string> {
    map["type" := "jig", "meter" := "4/4"]
  }

  /** The set counts behind the example: shared tags and tags in either, row by row. */
  lemma ExampleSetScores()
    ensures var q: set<string> := {"jig", "4/4"};
      |q * {"jig", "major", "6/8"}| == 1 && |q + {"jig", "major", "6/8"}| == 4 &&
      |q * {"reel", "minor", "4/4"}| == 1 && |q + {"reel", "minor", "4/4"}| == 4 &&
      |q * {"jig", "major", "4/4"}| == 2 && |q + {"jig", "major", "4/4"}| == 3
  {
    var q: set<string> := {"jig", "4/4"};
    assert q * {"jig", "major", "6/8"} == {"jig"};
    assert q + {"jig", "major", "6/8"} == {"jig", "major", "6/8"} + {"4/4"};
    assert q * {"reel", "minor", "4/4"} == {"4/4"};
    assert q + {"reel", "minor", "4/4"} == {"reel", "minor", "4/4"} + {"jig"};
    assert q * {"jig", "major", "4/4"} == q;
    assert q + {"jig", "major", "4/4"} == {"jig", "major", "4/4"};
  }

  /** The example filter's values, as a set. */
  lemma ExampleValues()
    ensures ExampleFilter().Values == {"jig", "4/4"}
  {
    assert ExampleFilter()["type"] == "jig" && ExampleFilter()["meter"] == "4/4";
  }

  /** The tags of the example table's rows. */
  lemma ExampleRowTags(i: nat)
    requires i < 3
    ensures RowTags(ExampleTable()[i]) == [{"jig", "major", "6/8"}, {"reel", "minor", "4/4"}, {"jig", "major", "4/4"}][i]
  {
  }

  /** When every tag of the row is known, only the query's known tags matter. */
  lemma KnownTagsOfRow(q: set<string>, r: set<string>, e: set<string>)
    requires r <= e
    ensures q * r * e == q * r && (q + r) * e == q * e + r
  {
  }

  class RetrievalSystem {
    /** The loaded table, in file order. */
    const df: seq<Tune>
    /** Distinct types, then distinct modes, then distinct meters. */
    const allTags: seq<string>
    /** The encoder's fitted terms, one per dimension. */
    const classes: seq<string>
    /** The encoding of every row, computed once. */
    const dbEncoded: seq<BitVec>
    /** Number of tunes returned per filter. */
    const K: nat

    ghost predicate Valid() {
      K == 3 &&
      allTags == AllTags(df) &&
      classes == Unique(allTags) &&
      |dbEncoded| == |df| &&
      forall i :: 0 <= i < |df| ==> dbEncoded[i] == Encode(classes, RowTags(df[i]))
    }

    /** Loads the records (keeping every one), normalises them and encodes the table. */
    constructor (db: seq<RawTune>)
      ensures Valid()
      ensures df == LoadCorpus(db)
    {
      var rows: seq<Tune> := [];
      for i := 0 to |db|
        invariant |rows| == i
        invariant forall j :: 0 <= j < i ==> rows[j] == LoadRow(db[j])
      {
        var name := HandleThe(db[i].name);
        var km := SplitMode(db[i].rawMode);
        rows := rows + [Tune(name, db[i].tuneType, km.key, km.mode, db[i].meter, db[i].abc)];
      }
      var tags := AllTags(rows);
      var terms := Unique(tags);
      df := rows;
      allTags := tags;
      classes := terms;
      dbEncoded := seq(|rows|, i requires 0 <= i < |rows| => Encode(terms, RowTags(rows[i])));
      K := 3;
    }

    /** The similarity of every row to the filter's tags. */
    function Scores(filter: map<string, string>): (s: seq<Score>)
      requires Valid()
      ensures |s| == |df|
    {
      var query := Encode(classes, filter.Values);
      seq(|df|, i requires 0 <= i < |df| => Jaccard(query, dbEncoded[i]))
    }

    /** Every row sets exactly one bit per distinct tag it has, so at least one. */
    lemma RowEncodingCount(i: nat)
      requires Valid() && i < |df|
      ensures Count(dbEncoded[i]) == |RowTags(df[i])| >= 1
    {
      RowTagsInAllTags(df, i);
      EncodeCount(classes, RowTags(df[i]));
      assert RowTags(df[i]) * Elements(classes) == RowTags(df[i]);
      assert df[i].tuneType in RowTags(df[i]);
    }

    /** Against a corpus row the union is never empty: every score is a defined fraction. */
    lemma ScoresDefined(filter: map<string, string>)
      requires Valid()
      ensures AllDefined(Scores(filter))
    {
      var query := Encode(classes, filter.Values);
      forall i | 0 <= i < |df|
        ensures Defined(Scores(filter)[i])
      {
        RowTagsInAllTags(df, i);
        var t := df[i].tuneType;
        assert t in classes;
        var k :| 0 <= k < |classes| && classes[k] == t;
        JaccardDefined(query, dbEncoded[i], k);
      }
    }

    /**
     * A row's score is the set Jaccard of the filter's known values and the
     * row's tags: the values it shares over the known values and tags together.
     */
    lemma ScoreIsSetJaccard(filter: map<string, string>, i: nat)
      requires Valid() && i < |df|
      ensures var q, r := filter.Values, RowTags(df[i]);
        Scores(filter)[i] == Score(|q * r|, |q * Elements(allTags) + r|)
    {
      var q, r, e := filter.Values, RowTags(df[i]), Elements(classes);
      assert Scores(filter)[i] == Jaccard(Encode(classes, q), Encode(classes, r));
      EncodedJaccard(classes, q, r);
      RowTagsInAllTags(df, i);
      assert e == Elements(allTags);
      KnownTagsOfRow(q, r, e);
    }

    /** Attribute names play no part: a value counts against every column of the row. */
    lemma ValueMatchesAnyColumn(filter: map<string, string>, i: nat, v: string)
      requires Valid() && i < |df|
      requires v in filter.Values && v in RowTags(df[i])
      ensures Scores(filter)[i].shared >= 1
    {
      RowTagsInAllTags(df, i);
      assert v in classes;
      var k :| 0 <= k < |classes| && classes[k] == v;
      var query := Encode(classes, filter.Values);
      assert And(query, dbEncoded[i])[k];
      CountPositive(And(query, dbEncoded[i]), k);
    }

    /** Two filters with the same values, under whatever names, score alike. */
    lemma AttributeNamesIgnored(f: map<string, string>, g: map<string, string>)
      requires Valid() && f.Values == g.Values
      ensures Scores(f) == Scores(g)
    {
    }

    /** Dropping an attribute whose value is not in the vocabulary changes no score. */
    lemma UnknownTagIgnored(filter: map<string, string>, name: string)
      requires Valid() && name in filter && filter[name] !in allTags
      ensures Scores(filter - {name}) == Scores(filter)
    {
      var v := filter[name];
      var rest := filter - {name};
      assert filter.Values == rest.Values + {v} by {
        forall x | x in filter.Values ensures x in rest.Values + {v} {
          var n :| n in filter && filter[n] == x;
          if n != name { assert rest[n] == x; }
        }
      }
      EncodeIgnoresUnknown(classes, rest.Values, v);
    }

    /**
     * select_tunes: the unknown values of the filter (reported, not rejected)
     * and the descriptions of the rows `picks`, a top-K of the table by score.
     */
    method SelectTunes(filter: map<string, string>) returns (tunes: seq<TuneResult>, unknown: set<string>, ghost picks: seq<nat>)
      requires Valid()
      ensures forall t :: t in unknown <==> t in filter.Values && t !in allTags
      ensures IsTopK(Scores(filter), picks, K)
      ensures tunes == DescribeAll(df, picks)
      ensures |tunes| == Min(K, |df|)
    {
      unknown := set t | t in filter.Values && t !in allTags;
      var query := Encode(classes, filter.Values);
      var scores := seq(|dbEncoded|, i requires 0 <= i < |dbEncoded| => Jaccard(query, dbEncoded[i]));
      assert scores == Scores(filter);
      ScoresDefined(filter);
      var order := Argsort(scores);
      var top := order[..Min(K, |order|)];
      RankingPrefixIsTopK(scores, order, K);
      tunes := DescribeRows(df, top);
      picks := top;
    }

    /**
     * call, with the translator's answer as input: None for "Not applicable."
     * or a failure; otherwise the sentence and header block of every selected
     * tune, filter after filter, with no de-duplication. `results[i]` are the
     * tunes selected for filter i, the rows `picks[i]`.
     */
    method Call(translation: Translation) returns (out: Option<string>, ghost results: seq<seq<TuneResult>>, ghost picks: seq<seq<nat>>)
      requires Valid()
      ensures !translation.Filters? ==> out == None
      ensures translation.Filters? ==>
        |results| == |picks| == |translation.filters| &&
        (forall i :: 0 <= i < |picks| ==> IsTopK(Scores(translation.filters[i]), picks[i], K)) &&
        (forall i :: 0 <= i < |picks| ==> results[i] == DescribeAll(df, picks[i])) &&
        |Flatten(results)| == |results| * Min(K, |df|) &&
        out == Some(RenderAll(Flatten(results)))
    {
      results, picks := [], [];
      if !translation.Filters? {
        return None, results, picks;
      }
      var filters := translation.filters;
      var tunes: seq<TuneResult> := [];
      for i := 0 to |filters|
        invariant |results| == |picks| == i
        invariant forall j :: 0 <= j < i ==> IsTopK(Scores(filters[j]), picks[j], K)
        invariant forall j :: 0 <= j < i ==> results[j] == DescribeAll(df, picks[j])
        invariant forall j :: 0 <= j < i ==> |results[j]| == Min(K, |df|)
        invariant tunes == Flatten(results)
      {
        var selected, _, chosen := SelectTunes(filters[i]);
        tunes := tunes + selected;
        results, picks := results + [selected], picks + [chosen];
        assert results[..i] == results[..|results| - 1];
      }
      FlattenLength(results, Min(K, |df|));
      var text := RenderReply(tunes);
      out := Some(text);
    }
  
    /** On the example table every value of the example filter is a known tag. */
    lemma ExampleValuesKnown()
      requires Valid() && df == ExampleTable()
      ensures ExampleFilter().Values * Elements(allTags) == ExampleFilter().Values
    {
      ExampleValues();
      RowTagsInAllTags(df, 0);
      RowTagsInAllTags(df, 1);
      assert "jig" in RowTags(df[0]) && "4/4" in RowTags(df[1]);
    }

    /** Row `i` of the example table scores its set Jaccard against {jig, 4/4}. */
    lemma ExampleRowScore(i: nat)
      requires Valid() && df == ExampleTable() && i < 3
      ensures var q: set<string>, r := {"jig", "4/4"}, RowTags(df[i]);
        Scores(ExampleFilter())[i] == Score(|q * r|, |q + r|)
    {
      ExampleValues();
      ExampleValuesKnown();
      ScoreIsSetJaccard(ExampleFilter(), i);
    }

    /**
     * On the example table the filter scores 1/4, 1/4 and 2/3: the first row
     * shares "jig", the second shares "4/4", the third shares both, so the
     * third ranks strictly above the other two.
     */
    lemma ExampleScores()
      requires Valid() && df == ExampleTable()
      ensures var s := Scores(ExampleFilter());
        s == [Score(1, 4), Score(1, 4), Score(2, 3)] && !AtLeast(s[0], s[2]) && !AtLeast(s[1], s[2])
    {
      var sc := Scores(ExampleFilter());
      ExampleSetScores();
      ExampleRowTags(0);
      ExampleRowTags(1);
      ExampleRowTags(2);
      ExampleRowScore(0);
      ExampleRowScore(1);
      ExampleRowScore(2);
      assert sc == [Score(1, 4), Score(1, 4), Score(2, 3)];
    }
  }
}
