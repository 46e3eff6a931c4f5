# Tag-based tune retrieval, modelled in Dafny

This project models the retrieval engine of `retrieval.py`. That engine helps a folk musician find reference tunes for a natural-language request. A language model turns the request into a list of attribute filters, each a small object such as `{"type": "jig", "meter": "4/4"}`. The engine then ranks the tune table against each filter by Jaccard similarity over multi-hot tag vectors. It keeps the best K = 3 tunes per filter and returns, for each of them, a description sentence and an ABC header block.

What is modelled:

- **Loading** (`Corpus`). Every raw record becomes a `Tune` row. The raw mode field is split into `key` (its first character) and `mode` (the rest), and a trailing ", The" on the name is moved to the front (`HandleThe`, a method with the source's loop over the suffix list). The vocabulary `allTags` is the distinct types, then the distinct modes, then the distinct meters.
- **Encoding** (`Encoding`). A fixed-width bit vector over the encoder's terms, with one bit per term that is among the tags. Tags outside the terms set no bit.
- **Similarity and ranking** (`Similarity`). A score is an exact fraction `Score(shared, total)`, meaning bits set in both over bits set in either. Scores are compared by cross-multiplication (`AtLeast`). `Argsort` ranks every row, best first. `IsTopK` states what a valid top-K is.
- **Rendering** (`Render`). The sentence "This tune is a {type} in {key}{mode} and {meter}." and the block "T:…\nM:…\nK:…\n{abc}\n". Each comes with a reader that recovers its fields.
- **Service** (`Retrieval.RetrievalSystem`). The table, the vocabulary, the encoder terms, the row encodings and K are `const` fields set once by the constructor. `SelectTunes` is the per-filter selection. `Call` assembles the reply. The translator's answer is an input, `Translation = NotApplicable | Filters(seq<map<string,string>>) | Failure`.

The model follows what the code does, in particular:

- The `drop_duplicates` chain at retrieval.py:34 discards its result, so no record is dropped. `LoadCorpus` keeps every record, and `|df| == |db|`.
- The ranking uses numpy's default (unstable) argsort, so ties are not promised to keep table order. The contracts only promise non-increasing score order. `TopKScoresAgree` proves that two valid selections can differ only among equal scores.
- An empty raw mode field is not rejected. pandas gives a missing key, which Python formats as "nan" (`KeyText(None)`).
- The zero-union case would be a NaN in the source, but it cannot arise. Every row sets at least one bit (`RowEncodingCount`), so every score against a row is a defined fraction (`ScoresDefined`).
- Unknown filter values are only printed by the source. The model returns them as a set from `SelectTunes`.
- Attribute names play no part in the score: a filter value counts as shared when it equals any of the row's type, mode or meter (`ValueMatchesAnyColumn`). Take a table of three tunes with tags {jig, major, 6/8}, {reel, minor, 4/4} and {jig, major, 4/4} (`ExampleTable`), and the filter {type: jig, meter: 4/4} (`ExampleFilter`). The scores are 1/4, 1/4 and 2/3. The reel shares only its meter with the filter, yet it scores the same as the first jig. The third tune ranks strictly above both (`RetrievalSystem.ExampleScores`).

The encoder's terms are `Unique(allTags)` in order of first appearance. scikit-learn sorts them, but the order does not matter: `EncodedJaccard` shows that a score is the set Jaccard of the known tags, whatever the term order.

## Model

| member | source | states |
|---|---|---|
| `Text.StripLeft` | retrieval.py:16 | the result is a suffix of the input, everything dropped is in the strip set, and the result does not start with a strip character |
| `Text.Strip` | retrieval.py:16 | the result is the piece of the input left after dropping a prefix and a suffix made only of strip characters, and it neither starts nor ends with one |
| `Text.StripRight` | retrieval.py:16 | the result is a prefix of the input, everything dropped is in the strip set, and the result does not end with a strip character |
| `Corpus.FrontArticle` | retrieval.py:11-17 | a title ending in ", The" becomes one character shorter and starts with "The "; any other title is unchanged |
| `Corpus.StripLeftSuffix` | retrieval.py:16 | stripping commas and spaces from the left of ", The" leaves "The" |
| `Corpus.StripSuffix` | retrieval.py:13-16 | stripping ", " from ", The" leaves "The" |
| `Corpus.HandleTheLoopResult` | retrieval.py:13-16 | running the loop body over the suffix list [", The"] is the same as moving a trailing ", The" to the front |
| `Corpus.HandleThe` | retrieval.py:11-17 | a title ending in ", The" becomes "The " plus the title without that suffix, one character shorter; any other title comes back unchanged |
| `Corpus.SplitMode` | retrieval.py:37-38 | for a non-empty raw mode, the key is its first character and key + mode gives the raw field back; an empty field gives no key and an empty mode |
| `Corpus.LoadRow` | retrieval.py:37-39 | the name has its article moved to the front; key and mode are exactly the split of the raw mode field (its first character and the rest, or a missing key and an empty mode for an empty field), so key text + mode gives a non-empty field back; type, meter and notation are copied unchanged |
| `Corpus.LoadCorpus` | retrieval.py:32-39 | loading keeps every record in file order: the table is exactly as long as the input (no de-duplication takes effect) and row i is record i loaded |
| `Corpus.Unique` | retrieval.py:69 | pandas `unique` keeps each value once and exactly the values of the column |
| `Corpus.AllTags` | retrieval.py:69 | the vocabulary holds at most three entries per row (a type, a mode and a meter each) |
| `Corpus.RowTagsInAllTags` | retrieval.py:69-72 | every row's type, mode and meter are in the vocabulary |
| `Corpus.AllTagsFromRows` | retrieval.py:69 | every vocabulary term is the type, mode or meter of some row |
| `Encoding.Encode` | retrieval.py:98 | an encoding has exactly one bit per encoder term |
| `Encoding.CountBounded` | retrieval.py:83-86 | a row sum never exceeds the row width |
| `Encoding.CountPositive` | retrieval.py:85-86 | a row with a set bit has a positive sum |
| `Encoding.CountZero` | retrieval.py:83-86 | a row with no set bit sums to zero |
| `Encoding.CountMonotone` | retrieval.py:83-86 | a row whose set bits are all set in another sums to at most that row's sum, as the intersection does against the union |
| `Encoding.EncodeCount` | retrieval.py:70-72 | over terms without repetitions, an encoding sets exactly one bit per known tag |
| `Encoding.EncodeIgnoresUnknown` | retrieval.py:94-98 | adding or removing a tag that is not a term leaves the encoding unchanged |
| `Encoding.EncodeKnownTags` | retrieval.py:98 | only the known tags of a set decide its encoding |
| `Similarity.Jaccard` | retrieval.py:79-88 | shared bits never exceed the bits set in either, and neither exceeds the vector width |
| `Similarity.JaccardBounded` | retrieval.py:79-88 | when the union is positive, the quotient intersection / union the source computes lies in [0, 1] |
| `Similarity.JaccardSymmetric` | retrieval.py:79-88 | the score of q against d equals the score of d against q |
| `Similarity.JaccardSelf` | retrieval.py:79-88 | a vector with a set bit, scored against itself, gives shared == total > 0, i.e. 1 |
| `Similarity.JaccardEmptyQuery` | retrieval.py:79-88 | a query with no set bit shares nothing with any row, and its union is the row's own count, so the score is 0 |
| `Similarity.JaccardDefined` | retrieval.py:85-87 | against a row with a set bit the union is positive, so the division is defined |
| `Similarity.EncodedJaccard` | retrieval.py:79-88 | on encodings the score is the set fraction: known tags in both over known tags in either |
| `Similarity.AtLeastTransitive` | retrieval.py:102 | comparing by cross-multiplication is transitive over defined scores |
| `Similarity.AtLeastMatchesQuotient` | retrieval.py:87-102 | cross-multiplying orders two defined scores exactly as their quotients compare |
| `Similarity.Argsort` | retrieval.py:102 | the result lists every row index exactly once, in non-increasing score order |
| `Similarity.RankingPrefixIsTopK` | retrieval.py:104-106 | the first min(k, n) entries of a ranking are a valid top-k: no row left out scores higher than a row taken |
| `Similarity.TopKNotBelow` | retrieval.py:102-106 | no valid top-k scores strictly lower than another one at the same position |
| `Similarity.TopKScoresAgree` | retrieval.py:102-106 | any two valid top-k selections have equal length and equal scores position by position; only ties can be ordered differently |
| `Render.Comment` | retrieval.py:110 | the sentence has the length of its fixed words plus its fields, starts with "This tune is a " and ends with "." |
| `Render.CommentRoundTrip` | retrieval.py:110 | the sentence reads back to the type, key-and-mode and meter it was built from, when the first " in " comes right after the type and the first " and " right after key-and-mode (so types with spaces such as "slip jig" qualify) |
| `Render.AbcForm` | retrieval.py:19-26 | the block has the length of its fields plus ten characters of field names and line breaks, starts with "T:" and ends with a line break |
| `Render.AbcFormRoundTrip` | retrieval.py:19-26 | the block reads back as the title line, meter line, key-and-mode line and then the notation body with its line break, when the three header fields hold no line break |
| `Retrieval.RenderAll` | retrieval.py:174-177 | the text has at least three characters per tune and, unless empty, ends with a blank line |
| `Retrieval.FlattenMembers` | retrieval.py:170-172 | a tune is in the combined list exactly when it is in the list of some filter |
| `Retrieval.DescribeRows` | retrieval.py:107-112 | the loop builds, in order, the sentence and header block of exactly the picked rows |
| `Retrieval.RenderAllAppend` | retrieval.py:174-177 | the reply text for two runs of tunes is the two texts concatenated |
| `Retrieval.FlattenAppend` | retrieval.py:170-172 | the tunes of two runs of filters are the two runs' tunes concatenated, in filter order |
| `Retrieval.FlattenLength` | retrieval.py:170-172 | filters that each give m tunes give m tunes apiece in total |
| `Retrieval.ReplyAppend` | retrieval.py:170-178 | the reply for a sequence of filters is the replies for its parts, in order |
| `Retrieval.RenderReply` | retrieval.py:174-177 | the output loop builds exactly the sentence, a line break, the block and a blank line for each tune in turn |
| `Retrieval.RetrievalSystem.constructor` | retrieval.py:29-77 | the table is the loaded corpus with every record kept; the vocabulary, encoder terms, row encodings and K = 3 satisfy `Valid` |
| `Retrieval.RetrievalSystem.Scores` | retrieval.py:98-100 | one score per row of the table |
| `Retrieval.RetrievalSystem.RowEncodingCount` | retrieval.py:69-72 | each row's encoding sets one bit per distinct tag of the row, so at least one bit |
| `Retrieval.RetrievalSystem.ScoresDefined` | retrieval.py:85-87 | every score against the table has a positive union |
| `Retrieval.RetrievalSystem.ScoreIsSetJaccard` | retrieval.py:79-100 | a row's score counts the filter values it shares over the union of the filter's known values and the row's tags |
| `Retrieval.RetrievalSystem.ValueMatchesAnyColumn` | retrieval.py:92-98 | a filter value equal to a row's type, mode or meter counts as shared, whatever attribute name it came under |
| `Retrieval.RetrievalSystem.AttributeNamesIgnored` | retrieval.py:92 | two filters with the same values score every row alike |
| `Retrieval.RetrievalSystem.UnknownTagIgnored` | retrieval.py:94-98 | dropping an attribute whose value is not in the vocabulary changes no score |
| `Retrieval.RetrievalSystem.ExampleScores` | retrieval.py:79-100 | on the three-tune example table the filter {type: jig, meter: 4/4} scores 1/4, 1/4 and 2/3, so the third tune ranks strictly above the others |
| `Retrieval.RetrievalSystem.SelectTunes` | retrieval.py:90-113 | the unknown values are exactly the filter values outside the vocabulary; the tunes describe a valid top-K (min(3, n) rows, non-increasing score, none left out scores higher) |
| `Retrieval.RetrievalSystem.Call` | retrieval.py:164-180 | "Not applicable." and failures give None; otherwise the reply is the rendered per-filter top-K tunes concatenated in filter order, min(3, n) per filter with no de-duplication (an empty filter list gives "") |

## Left out

- `translate_query` (the language-model call, its few-shot prompt, the backslash clean-up and `json.loads`) is not part of this model. Its result is the input `Translation`, and every exception it can raise is the `Failure` case.
- Reading the JSON file and the column projection are library plumbing. The input is already a sequence of `RawTune` records.
- The database description, the system prompt text and the sampling parameters are text and configuration for the language model.
- The process-wide API key assignment is global state of the network client.
- The `print` lines are console output. The unknown-tag report becomes the `unknown` result of `SelectTunes`.
- Floating-point division is replaced by exact fractions. `AtLeastMatchesQuotient` relates the two.
- scikit-learn's sorted term order is replaced by first-appearance order. Scores do not depend on the order (`EncodedJaccard`).
- Filter values that are not strings are outside the `map<string, string>` filter type. Numbers, booleans and null would only be reported as unknown, and the encoder ignores them, so the filter is ranked as if the value were an unknown tag. List or object values make the encoder raise, and `call` then returns `None`. The model shows neither path.
- A file without the expected columns makes the constructor raise. So does an empty record list, which pandas reads with no columns at all. The model has no such path, because records are typed. From `LoadCorpus([])` it builds a service whose every selection is empty.
- SelectTunes: does not promise the tie order numpy's argsort produces among equal scores, because that order is an implementation detail of numpy's sort. Any valid top-K is allowed, and `TopKScoresAgree` bounds the freedom to ties.
- Call: states the selections through ghost results, so it says which tunes appear, up to ties, rather than fixing one order among ties.
