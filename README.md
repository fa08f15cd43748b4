# WeRateDogs wrangling pipeline, modelled in Dafny

This project models the row-level cleaning and joining in the notebook script
`CML_Wrangle_act.py`. The script builds one master table of WeRateDogs tweets
from three inputs:

- the archive `twit_arc`: tweet id, expanded URLs, retweet columns, rating
  numerator and denominator, dog name, and four dog-stage marker columns;
- the engagement table `twit_json`: tweet id, retweet count, favourite count;
- the image predictions `predict`: three ranked breed labels, each with an
  "is a dog" flag.

The archive is cleaned in place, one step after another:

1. Rows without URLs are dropped.
2. Each URL cell is cut at its first comma.
3. Retweets are dropped.
4. The rating columns go through two fixed replacement tables.
5. A `ratings` string "N/D" is added.
6. Names that read as lower-case, and missing names, become NaN.
7. Every NaN in the frame becomes the string "None".
8. The four marker columns are merged into one `dog_stage` column.

The prediction labels are capitalised. The archive is then inner-joined with
the engagement counts. A loop picks one breed per prediction row: the first
label whose flag is set, or "No correct prediction". The breed column is then
left-joined in.

How the model is built:

- **Tables and cells.** Tables are sequences of rows. A nullable object
  column is a `Cell`, either `Null` (NaN) or `Str(s)`.
- **Frames.** The frames the script changes in place are the classes
  `ArchiveFrame` and `PredictFrame`. Each has a `rows` field that its methods
  replace. Each method is specified by a function on the old rows, and the
  properties of the step are proved about that function.
- **Loops.** The two loops of the cleaning core (lines 523 and 629) are
  `for` loops with invariants: `PredictFrame.CapitalizeColumns` (the loop
  over the label columns) and `DogPredictions` (the breed loop).
- **Whole run.** `Pipeline.Wrangle` runs the archive steps in the script's
  order, then the label capitalisation of line 524. The script runs that
  step between lines 472 and 563, but the two frames share no state, so
  the result is the same. Then come the inner merge, the breed loop and the
  left merge. `Wrangle` is proved equal to the function `Pipeline.Master`.
- **End-to-end guarantees.** `MasterRowFacts` and `MasterUniqueIds` state
  what every master row satisfies.

Behaviours of the notebook worth knowing:

- The string written for a missing name or dog stage is "None", with a
  capital N (lines 472 and 580).
- `str.capitalize()` upper-cases the first character of each label and
  lower-cases the rest (line 524).
- The empty concatenation (no marker set) becomes "None", and a marker
  concatenation other than the three renamed pairs is kept as it is
  (lines 576-580).
- The rating repair is applied by value to every row, not to particular
  tweets. So a 9/10 rating also becomes 14/10 (line 402;
  `RatingRepairByValue`).
- The left merge leaves NaN in `dog_predict` for a tweet that has no
  prediction row, while a tweet whose three labels are not dogs gets
  "No correct prediction" (lines 637 and 644).

## Model

| member | source | states |
|---|---|---|
| Text.IsLowerMeaning | CML_Wrangle_act.py:469 | `str.islower()`, modelled as CPython's scan, holds exactly when the string has a lower-case letter and no upper-case letter |
| Text.Capitalize | CML_Wrangle_act.py:524 | `str.capitalize()` keeps the length, upper-cases the first character and lower-cases every other character |
| Text.CapitalizeIdempotent | CML_Wrangle_act.py:524 | capitalising a label twice gives the same label as capitalising it once |
| Text.CapitalizeShape | CML_Wrangle_act.py:524 | a capitalised label has no upper-case letter after position 0, and it does not read as lower-case when it starts with a letter |
| Text.IntToString | CML_Wrangle_act.py:412 | `str(n)` is a canonical integer rendering: digits with no leading zero unless the number is 0, and a minus sign exactly when the number is negative |
| Text.IntToStringRoundTrip | CML_Wrangle_act.py:412 | `int(str(n)) == n` for every integer, so `astype('str')` loses nothing |
| Text.IntToStringUnique | CML_Wrangle_act.py:412 | a canonical string that `int` reads as `n` is `str(n)`, so `str(n)` is the only canonical rendering of `n` |
| Rules.DeleteDuplicatedUrls | CML_Wrangle_act.py:309-311 | `url.split(',')[0]` is a prefix of the URL without a comma, and it ends at the URL's end or just before a comma |
| Rules.FirstFieldUnique | CML_Wrangle_act.py:309-311 | exactly one string satisfies that description, so the contract defines the first comma-separated field |
| Rules.DeleteDuplicatedUrlsKeepsSingle | CML_Wrangle_act.py:309-311 | a URL without a comma is returned unchanged |
| Rules.DeleteDuplicatedUrlsIdempotent | CML_Wrangle_act.py:309-311 | cutting at the first comma a second time changes nothing |
| Rules.ReplaceList | CML_Wrangle_act.py:402-403 | `Series.replace(from, to)` on one cell: a value not in `from` is kept; a value in `from` gets the `to` entry of its last occurrence; each cell is rewritten at most once |
| Rules.RepairNumerator | CML_Wrangle_act.py:402 | 9→14, 4→13, 7→10, 1→9 and 24→10; every other numerator is kept |
| Rules.RepairDenominator | CML_Wrangle_act.py:403 | 11, 20, 2 and 7 become 10; every other denominator is kept; none of the four is left afterwards |
| Rules.RepairDenominatorIdempotent | CML_Wrangle_act.py:403 | running the denominator replacement again changes nothing |
| Rules.RepairNumeratorNotIdempotent | CML_Wrangle_act.py:402 | running the numerator replacement again is not a no-op: 1 becomes 9, and a second pass would turn that 9 into 14 |
| Rules.RatingsString | CML_Wrangle_act.py:412 | the `ratings` string is two canonical integer renderings around its first '/', and it parses back into exactly the numerator and denominator |
| Rules.RatingsStringUnique | CML_Wrangle_act.py:412 | any canonical "N/D" string that parses back as (num, den) equals `RatingsString(num, den)`, so the string is exactly `str(num) + "/" + str(den)` |
| Rules.MaskLowerName | CML_Wrangle_act.py:469-471 | the name becomes NaN exactly when it is missing or reads as lower-case; otherwise it is kept |
| Rules.FillNone | CML_Wrangle_act.py:472 | a NaN cell becomes "None", and a string cell is kept |
| Rules.NameRepair | CML_Wrangle_act.py:469-472 | a repaired name is a string that never reads as lower-case and is never "a"; it is "None" exactly when the name was missing, lower-case or already "None"; otherwise it is the original name |
| Rules.BlankMarker | CML_Wrangle_act.py:563-570 | a marker cell becomes '' when it is NaN or "None" and is kept otherwise; it is never NaN afterwards |
| Rules.RenameStage | CML_Wrangle_act.py:577-580 | "doggopupper", "doggopuppo" and "doggofloofer" get their comma-joined names; '' becomes "None"; any other value is kept; the result is never '' |
| Rules.DogStage | CML_Wrangle_act.py:576-580 | the markers are concatenated in the order doggo, floofer, pupper, puppo and then renamed; the stage is NaN exactly when one marker is NaN, and a string stage is never empty (its value is stated by `StageNeverEmpty` and `StageOfMarkers`) |
| Rules.StageNeverEmpty | CML_Wrangle_act.py:563-580 | after blanking, the consolidated stage is a non-empty string, and it is "None" when no marker is set |
| Rules.ReadPartsOfParts | CML_Wrangle_act.py:576 | the concatenation doggo+floofer+pupper+puppo can be read back into exactly which markers were set |
| Rules.StageRoundTrip | CML_Wrangle_act.py:576-580 | each of the sixteen marker combinations gives a stage that decodes back to that combination, so the stage loses no information |
| Rules.StageOfMarkers | CML_Wrangle_act.py:563-580 | for markers as the archive writes them (NaN, "None" or the marker's own name), the stage is the stage name of the markers that are set, and it decodes back to them |
| Tables.FilterAppend | CML_Wrangle_act.py:343-345 | dropping rows keeps the order of the rows that survive |
| Tables.FilterUnique | CML_Wrangle_act.py:343-345 | dropping rows never repeats a row, so unique ids stay unique |
| Archive.NonNullUrls | CML_Wrangle_act.py:306 | `dropna(subset=['expanded_urls'])` keeps exactly the rows that have a URL, each one unchanged; there are as many rows as rows with a URL |
| Archive.FirstUrls | CML_Wrangle_act.py:313-314 | each URL cell becomes its first comma-separated field, and no other column changes |
| Archive.Originals | CML_Wrangle_act.py:343-345 | exactly the rows with a null `retweeted_status_id` are kept, each one unchanged; there are as many rows as such rows |
| Archive.RepairedRatings | CML_Wrangle_act.py:402-403 | both rating columns go through their tables on every row; no denominator 11, 20, 2 or 7 is left; no other column changes |
| Archive.WithRatings | CML_Wrangle_act.py:412 | each new `ratings` cell is a canonical "N/D" string that reads back as that row's numerator and denominator (so it is `str(n) + "/" + str(d)`), and no other column changes |
| Archive.MaskedNames | CML_Wrangle_act.py:469-471 | a name becomes NaN exactly when it is missing or lower-case; any other name and every other column is kept |
| Archive.NullsFilled | CML_Wrangle_act.py:472 | every NaN cell in every column, the marker columns included, becomes "None", and every other cell is kept |
| Archive.BlankedMarkers | CML_Wrangle_act.py:563-570 | the four marker cells of every row are blanked, and nothing else changes |
| Archive.ConsolidatedStages | CML_Wrangle_act.py:576-582 | the markers are replaced by one `dog_stage` cell computed from them, and nothing else changes |
| Archive.ArchiveFrame.DropNullUrls | CML_Wrangle_act.py:306 | the frame's rows become `NonNullUrls` of the old rows, and all of them have a URL |
| Archive.ArchiveFrame.DeduplicateUrls | CML_Wrangle_act.py:313-314 | the rows become `FirstUrls` of the old rows, and no URL holds a comma |
| Archive.ArchiveFrame.DropRetweets | CML_Wrangle_act.py:343-345 | the rows become `Originals` of the old rows, and none of them is a retweet |
| Archive.ArchiveFrame.RepairRatings | CML_Wrangle_act.py:402-403 | the rows become `RepairedRatings` of the old rows |
| Archive.ArchiveFrame.AddRatings | CML_Wrangle_act.py:412 | the rows become `WithRatings` of the old rows |
| Archive.ArchiveFrame.MaskLowerNames | CML_Wrangle_act.py:469-471 | the rows become `MaskedNames` of the old rows |
| Archive.ArchiveFrame.FillNulls | CML_Wrangle_act.py:472 | the rows become `NullsFilled` of the old rows |
| Archive.ArchiveFrame.BlankStageMarkers | CML_Wrangle_act.py:563-570 | the rows become `BlankedMarkers` of the old rows |
| Archive.ArchiveFrame.ConsolidateStages | CML_Wrangle_act.py:576-582 | the rows become `ConsolidatedStages` of the old rows, and no marker column is left |
| Archive.RetweetColumnsClearedTogether | CML_Wrangle_act.py:353 | when the retweet id and the retweet user id are null on the same rows, no kept row has a retweet user id |
| Archive.OnlyRetweetIdIsTested | CML_Wrangle_act.py:343-345 | a row with a retweet user id but no retweet id is kept, because only `retweeted_status_id` is tested |
| Archive.NoUrlHoldsComma | CML_Wrangle_act.py:325-327 | after the two URL steps no URL cell holds a comma |
| Predictions.CapitalizeLabels | CML_Wrangle_act.py:521-524 | each of the three labels is capitalised on its own; the flags and the id are kept |
| Predictions.CapitalizeLabelsIdempotent | CML_Wrangle_act.py:521-524 | capitalising the labels twice equals capitalising them once |
| Predictions.CapitalizeColumn | CML_Wrangle_act.py:524 | one label column goes through `str.capitalize()` on every row; the other two labels, the flags, the ids and the row count are kept |
| Predictions.PredictFrame.CapitalizeColumns | CML_Wrangle_act.py:521-524 | after the loop over `p1`, `p2`, `p3`, every row of `predict` has its three labels capitalised |
| Predictions.Breed | CML_Wrangle_act.py:629-637 | when some flag is set, the breed is the label of the lowest-ranked set flag; when none is set, it is "No correct prediction" |
| Predictions.DogPredictions | CML_Wrangle_act.py:627-637 | the loop appends one entry per prediction row, in row order, and entry i is the breed of row i |
| Predictions.BreedTable | CML_Wrangle_act.py:640-641 | `predict_copy` pairs each row's id with that row's breed |
| Joins.Matches | CML_Wrangle_act.py:606 | one archive row gives as many merged rows as the engagement table has rows with its id |
| Joins.MatchesSound | CML_Wrangle_act.py:606 | each of those merged rows combines the archive row with an engagement row of the same id |
| Joins.MatchesComplete | CML_Wrangle_act.py:606 | every engagement row with the archive row's id is combined with it |
| Joins.InnerJoin | CML_Wrangle_act.py:606 | the inner merge has one row per pair of rows with the same id |
| Joins.InnerJoinWitness | CML_Wrangle_act.py:606 | each merged row combines an archive row and an engagement row that have the same id |
| Joins.InnerJoinSound | CML_Wrangle_act.py:606 | every row of the inner merge pairs an archive row with an engagement row of the same id |
| Joins.InnerJoinComplete | CML_Wrangle_act.py:606 | every pair of rows with the same id appears in the inner merge |
| Joins.InnerJoinOneRowPerMatch | CML_Wrangle_act.py:606 | with unique engagement ids, the merge has exactly one row per archive row that has a partner |
| Joins.InnerJoinUniqueIds | CML_Wrangle_act.py:606 | with unique ids on both sides, no id appears twice in the merge |
| Joins.BreedMatches | CML_Wrangle_act.py:644 | a row with partners in `predict_copy` gives one row per partner, each with a breed |
| Joins.BreedMatchesSound | CML_Wrangle_act.py:644 | each such row carries the breed of a `predict_copy` row with the same id |
| Joins.BreedMatchesComplete | CML_Wrangle_act.py:644 | every `predict_copy` row with the row's id gives one of those rows, with its breed |
| Joins.LeftRows | CML_Wrangle_act.py:644 | a row gives one output row per `predict_copy` row with its id, or exactly one when there is none; the breed is null exactly when `predict_copy` lacks its id |
| Joins.LeftJoin | CML_Wrangle_act.py:644 | the left merge has, for each archive row, as many rows as it has partners, or one when it has none (so at least as many rows as the archive); an output breed is null exactly when `predict_copy` lacks that id |
| Joins.LeftJoinComplete | CML_Wrangle_act.py:644 | every pair of an archive row and a `predict_copy` row with the same id appears in the left merge, with that row's breed |
| Joins.LeftJoinSound | CML_Wrangle_act.py:644 | every output row carries an archive row and, when it has a breed, the breed of a `predict_copy` row with the same id |
| Joins.LeftJoinKeepsRow | CML_Wrangle_act.py:644 | no archive row is dropped by the left merge |
| Joins.PredictionFor | CML_Wrangle_act.py:644 | the looked-up breed is null exactly when no `predict_copy` row has the id |
| Joins.PredictionForUnique | CML_Wrangle_act.py:644 | with unique ids, the looked-up breed is that of the one row with the id |
| Joins.LeftRowsUnique | CML_Wrangle_act.py:644 | with unique prediction ids, each row gives exactly one output row |
| Joins.LeftJoinOneToOne | CML_Wrangle_act.py:644 | with unique prediction ids, the row count is unchanged, and row i is archive row i with its breed or null |
| Pipeline.MarkersKept | CML_Wrangle_act.py:306-472 | the steps before the stage merge keep the four marker columns on every row |
| Pipeline.CleanTwitArc | CML_Wrangle_act.py:306-582 | running the archive steps in place in the script's order gives the cleaned archive |
| Pipeline.PredictCopy | CML_Wrangle_act.py:627-641 | the breed loop and the id column give `predict_copy` |
| Pipeline.Wrangle | CML_Wrangle_act.py:306-644 | the whole run on frames gives the master table |
| Pipeline.FilteredRows | CML_Wrangle_act.py:306-345 | after the URL and retweet steps, every row has one comma-free URL, no retweet id, and an id from a raw row that had a URL and was not a retweet |
| Pipeline.MiddleRows | CML_Wrangle_act.py:402-472 | after the rating and name steps, every row also has a repaired denominator, a `ratings` string that reads back as its numbers, a name that does not read as lower-case, and "None" in the retweet column |
| Pipeline.FinalRows | CML_Wrangle_act.py:563-582 | after the stage merge, every row has a non-empty `dog_stage` string and keeps its other guarantees |
| Pipeline.CleanArchiveRows | CML_Wrangle_act.py:306-582 | every row of the cleaned archive has all of the guarantees above and comes from a usable raw row |
| Pipeline.CleanArchiveUnique | CML_Wrangle_act.py:306-582 | cleaning keeps the archive's ids unique |
| Pipeline.BreedColumn | CML_Wrangle_act.py:627-644 | a master row's breed is null exactly when `predict` lacks its id; otherwise it is the breed picked from the capitalised labels of a prediction row with that id |
| Pipeline.MasterRowFacts | CML_Wrangle_act.py:306-644 | every master row is a cleaned archive row from a usable raw row, carries the counts of an engagement row with its id, and carries its breed or null as above |
| Pipeline.MissingCountsDropped | CML_Wrangle_act.py:606 | an id that is missing from the engagement table is missing from the master table |
| Pipeline.MasterUniqueIds | CML_Wrangle_act.py:606-644 | with unique ids in all three inputs, the master table has one row per cleaned archive row with engagement counts, and no id appears twice |
| Scenarios.RatingNineElevenScenario | CML_Wrangle_act.py:402-412 | a 9/11 rating becomes "14/10" |
| Scenarios.RatingRepairByValue | CML_Wrangle_act.py:402 | a 9/10 rating becomes 14/10 and a 1/10 rating becomes 9/10, even though neither is among the ratings being fixed |
| Scenarios.NameTheScenario | CML_Wrangle_act.py:469-472 | the name "the" becomes "None" |
| Scenarios.NameKeptScenario | CML_Wrangle_act.py:469-472 | "Bella" is kept, and so is "42", which has no letters |
| Scenarios.DoggoPupperScenario | CML_Wrangle_act.py:563-580 | doggo and pupper set, with the others "None" or NaN, give "doggo,pupper" |
| Scenarios.ThirdRankScenario | CML_Wrangle_act.py:629-637 | when only the third label is a dog, the breed is that label capitalised: "Golden_retriever" |
| Scenarios.SentinelVersusNull | CML_Wrangle_act.py:637-644 | a tweet with no dog label gets "No correct prediction"; a tweet missing from `predict` gets null |

## Left out

- Reading the inputs: the CSV archive, the downloaded prediction TSV, the Twitter API calls through tweepy, and the JSON-lines file. These are I/O and network. The three tables are parameters of `Wrangle`.
- `string_convert` (lines 441-447, 494-499, 543): ids are modelled as strings from the start. The float and NaN rendering of the other id columns depends on pandas and NumPy formatting.
- The `timestamp` conversion to `datetime64` (line 367), the column drops of `twit_json` (line 499) and the `id` → `tweet_id` rename (line 604): the model has no timestamp type, and only the join key's name matters.
- Columns the cleaning does not read (text, source, reply ids, image URL and number, prediction confidences) are not in the row types.
- The DataFrame index: `predict['p1'][i]` is read as position `i`. This is the same only while `predict` keeps its default index.
- Archive.FirstUrls, Pipeline.Wrangle: when no row has an `expanded_urls` value after line 306 (the empty archive included), the `apply` at line 313 runs its lambda on an all-NaN row, `NaN.split` fails, and assigning the resulting frame to one column raises ValueError, which stops the notebook. The model returns the empty table there, and `Wrangle` an empty master table.
- The print loops at lines 393-394 and 422-423 look up the five index labels 1068, 1165, 1662, 2335 and 516, and raise KeyError when one of them is missing (at line 394 also when its denominator is already 10). This stops the notebook before the repair at line 402. The model has no row labels and does not model this failure.
- The other `print`, `info`, `sample` and `value_counts` cells, the analysis after line 644, and the `to_csv` write at line 668 (file output).
- The chained `inplace=True` calls at lines 402-403, 563-570 and 580 are modelled as updating `twit_arc`, which holds for pandas without copy-on-write; under copy-on-write they would leave `twit_arc` unchanged.
- Text.IsLowerMeaning, Text.IsLower: only ASCII letters are cased, so a name such as "Élise" reads as lower-case in the model but not in Python. Unicode case rules beyond ASCII are not modelled.
- Text.Capitalize: only ASCII letters are changed. Python's special cases (title-case digraphs, characters that expand when upper-cased) are not modelled.
- Joins.InnerJoin: output order is modelled as left rows in order, each followed by its partners in the right table's order. This is what pandas documents for an inner merge; the index it builds is not modelled.
